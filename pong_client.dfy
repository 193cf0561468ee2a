/**
 * The client program (src/pong_client.cpp): the send callback that the game calls once per
 * online frame, the receive callback that turns a received buffer into a queued event,
 * and the wiring that happens only when the connection to the server succeeded.
 *
 * The byte images of outgoing messages are parameters (`encodeInput`, `encodeState`);
 * only their tag byte is part of this model.
 */
module Client {
  import opened Options
  import opened Protocol
  import opened Net
  import G = Game
  import Server

  /** The send callback sends a GameStateMsg instead of an input on every 30th call. */
  const StateEvery: int := 30

  /** What one call of the send callback hands to SendToServer. */
  datatype Outgoing = InputOut(input: PlayerInputMsg) | StateOut(state: GameStateMsg)

  /** The callback's static counter after a call, and what that call sent. */
  datatype SendStep = SendStep(count: int, out: Option<Outgoing>)

  /**
   * One call of the send callback, given the counter before it and the game fields it
   * reads: below 30 after the increment, an input message with the current mask; at 30,
   * the counter goes back to 0 and only Player1 sends the ball position and its own y.
   */
  function Schedule(count: int, mask: byte, ballX: real, ballY: real, role: PlayerId, p1Y: real): (t: SendStep)
    ensures count + 1 < StateEvery ==> t.count == count + 1 && t.out == Some(InputOut(NewPlayerInputMsg(mask)))
    ensures count + 1 >= StateEvery ==> t.count == 0 && (t.out.Some? <==> role == Player1)
    ensures count + 1 >= StateEvery && role == Player1 ==> t.out == Some(StateOut(NewGameStateMsg(ballX, ballY, role, p1Y)))
    ensures t.out.Some? && t.out.value.StateOut? ==>
              count + 1 >= StateEvery && t.out.value.state == NewGameStateMsg(ballX, ballY, role, p1Y)
  {
    if count + 1 >= StateEvery then
      SendStep(0, if role == Player1 then Some(StateOut(NewGameStateMsg(ballX, ballY, role, p1Y))) else None)
    else
      SendStep(count + 1, Some(InputOut(NewPlayerInputMsg(mask))))
  }

  /** Whether a call sent an input message, a state message. */
  function InputsIn(t: SendStep): nat { if t.out.Some? && t.out.value.InputOut? then 1 else 0 }
  function StatesIn(t: SendStep): nat { if t.out.Some? && t.out.value.StateOut? then 1 else 0 }

  /** How many frames a run covers, and how many inputs and states it sent. */
  datatype Run = Run(count: int, inputs: nat, states: nat)

  /**
   * `n` calls of the send callback from counter `count` (the message kinds do not depend
   * on the game fields, so those are fixed here).
   */
  function Frames(count: int, n: nat, role: PlayerId): Run
    decreases n
  {
    if n == 0 then Run(count, 0, 0)
    else
      var t := Schedule(count, 0, 0.0, 0.0, role, 0.0);
      var rest := Frames(t.count, n - 1, role);
      Run(rest.count, InputsIn(t) + rest.inputs, StatesIn(t) + rest.states)
  }

  /** One run followed by another that starts where the first left the counter. */
  function Then(x: Run, y: Run): Run
  {
    Run(y.count, x.inputs + y.inputs, x.states + y.states)
  }

  /** A run of a + b calls is a run of a calls followed by a run of b calls. */
  lemma {:induction false} FramesSplit(count: int, a: nat, b: nat, role: PlayerId)
    ensures Frames(count, a + b, role) == Then(Frames(count, a, role), Frames(Frames(count, a, role).count, b, role))
    decreases a
  {
    if a > 0 {
      var t := Schedule(count, 0, 0.0, 0.0, role, 0.0);
      FramesSplit(t.count, a - 1, b, role);
      assert a + b - 1 == (a - 1) + b;
    }
  }

  /** While the counter stays below 30, every call sends an input and nothing else. */
  lemma {:induction false} FramesBelowReset(count: int, n: nat, role: PlayerId)
    requires 0 <= count && count + n < StateEvery
    ensures Frames(count, n, role) == Run(count + n, n, 0)
    decreases n
  {
    if n > 0 {
      FramesBelowReset(count + 1, n - 1, role);
    }
  }

  /** A run that ends with the reset: from `count` up to 30, inputs until the last call. */
  lemma {:induction false} FramesToReset(count: int, role: PlayerId)
    requires 0 <= count < StateEvery
    ensures Frames(count, (StateEvery - count) as nat, role)
         == Run(0, (StateEvery - 1 - count) as nat, if role == Player1 then 1 else 0)
    decreases StateEvery - count
  {
    if count + 1 < StateEvery {
      FramesToReset(count + 1, role);
      assert (StateEvery - count) as nat - 1 == (StateEvery - (count + 1)) as nat;
    }
  }

  /**
   * Every 30 consecutive calls, from any reachable counter value, send 29 input messages
   * and one state message (none as Player2), and leave the counter where it was.
   */
  // The length of the cycle is a parameter rather than the literal 30 so that the
  // verifier does not unfold Frames thirty times.
  lemma FramesCycle(count: int, period: nat, role: PlayerId)
    requires 0 <= count < StateEvery && period == StateEvery
    ensures Frames(count, period, role) == Run(count, period - 1, if role == Player1 then 1 else 0)
  {
    var toReset: nat := (StateEvery - count) as nat;
    var inputsBefore: nat := (StateEvery - 1 - count) as nat;
    var after: nat := count as nat;
    var state: nat := if role == Player1 then 1 else 0;
    FramesToReset(count, role);
    FramesBelowReset(0, after, role);
    FramesSplit(count, toReset, after, role);
    var x, y := Frames(count, toReset, role), Frames(0, after, role);
    assert x == Run(0, inputsBefore, state) && y == Run(after, after, 0);
    assert Frames(count, toReset + after, role) == Then(x, y);
    assert Then(x, y) == Run(count, period - 1, state);
    assert period == toReset + after;
  }

  /** The bytes a message goes out as. */
  function Encode(o: Outgoing, encodeInput: PlayerInputMsg -> seq<byte>, encodeState: GameStateMsg -> seq<byte>): seq<byte>
  {
    match o
    case InputOut(m) => encodeInput(m)
    case StateOut(m) => encodeState(m)
  }

  /** The `static int count` of the send callback. */
  class InputSender {
    var count: int

    constructor ()
      ensures count == 0
    {
      count := 0;
    }

    /**
     * Send2ServerCallback: advance the counter and send what Schedule says through
     * SendToServer (whose result the callback ignores). `written` is what the socket
     * library reports for that write.
     */
    method Send2Server(game: G.Game, nm: NetworkManager, encodeInput: PlayerInputMsg -> seq<byte>,
                       encodeState: GameStateMsg -> seq<byte>, written: int) returns (out: Option<Outgoing>)
      modifies this, nm
      ensures SendStep(count, out)
           == Schedule(old(count), game.stateMask, game.ball.body.x, game.ball.body.y, game.playerId,
                       game.GetPlayer(Player1).body.y)
      ensures nm.outbox == old(nm.outbox)
                + (if out.Some? && nm.clientSocket.Some?
                   then [Write(nm.clientSocket.value, Encode(out.value, encodeInput, encodeState))] else [])
      ensures nm.clients == old(nm.clients) && nm.clientSocket == old(nm.clientSocket)
    {
      count := count + 1;
      if count >= StateEvery {
        count := 0;
        if game.playerId == Player1 {
          var gsMsg := NewGameStateMsg(game.ball.body.x, game.ball.body.y, game.playerId, game.GetPlayer(Player1).body.y);
          var _ := nm.SendToServer(encodeState(gsMsg), written);
          out := Some(StateOut(gsMsg));
        } else {
          out := None;
        }
      } else {
        var piMsg := NewPlayerInputMsg(game.stateMask);
        var _ := nm.SendToServer(encodeInput(piMsg), written);
        out := Some(InputOut(piMsg));
      }
    }
  }

  /**
   * The event a received buffer becomes: its first byte as the kind, a copy of all its
   * bytes as the data. The receive loop calls back only after a read of at least one byte.
   */
  function ToNetEvent(data: seq<byte>): (e: NetEvent)
    requires |data| > 0
    ensures e.data == data
    ensures forall t :: EventType(e) == Some(t) <==> StartsWithTag(data, t)
    ensures EventType(e) == None <==> data[0] >= 3
  {
    NetEvent(data[0], data)
  }

  /** HandleReceivedDataCallback: build the event and queue it on the game. */
  method HandleReceivedData(game: G.Game, data: seq<byte>)
    requires |data| > 0
    modifies game
    ensures game.netEvents == old(game.netEvents) + [ToNetEvent(data)]
    ensures game.Snapshot() == old(game.Snapshot()) && game.View() == old(game.View())
    ensures game.isOnline == old(game.isOnline) && game.running == old(game.running)
  {
    game.AddNetEvent(ToNetEvent(data));
  }

  /**
   * The wiring in main: only a successful connection puts the game online and installs
   * the send callback (a fresh counter at 0); otherwise the game stays as it was.
   */
  method SetUpOnline(game: G.Game, connected: bool) returns (sender: InputSender?)
    modifies game
    ensures connected ==> game.isOnline && sender != null && fresh(sender) && sender.count == 0
    ensures !connected ==> sender == null && game.isOnline == old(game.isOnline)
    ensures game.Snapshot() == old(game.Snapshot()) && game.View() == old(game.View())
    ensures game.netEvents == old(game.netEvents) && game.running == old(game.running)
  {
    sender := null;
    if connected {
      game.SetIsOnline(true);
      sender := new InputSender();
    }
  }

  /**
   * One online frame of Game::Loop: read the keys, drain the event queue, run the send
   * callback, then update (prediction only, online). The mask a frame sends is the one
   * merged from that frame's keys under the role held *before* the drain, and the
   * prediction then moves the paddle of the role held after it.
   */
  method OnlineFrame(game: G.Game, sender: InputSender, nm: NetworkManager, keys: G.KeyState, quit: bool,
                     roleOf: seq<byte> -> PlayerId, encodeInput: PlayerInputMsg -> seq<byte>,
                     encodeState: GameStateMsg -> seq<byte>, written: int, dt: real) returns (out: Option<Outgoing>)
    requires game.isOnline
    modifies game, sender, nm
    ensures game.running == (old(game.running) && !quit) && game.isOnline
    ensures game.netEvents == [] && game.View() == G.Drain(old(game.View()), old(game.netEvents), roleOf)
    ensures SendStep(sender.count, out)
         == Schedule(old(sender.count), G.MergeInput(old(game.stateMask), G.InputMask(keys), true, old(game.playerId)),
                     old(game.ball.body.x), old(game.ball.body.y), game.playerId, old(game.player1.body.y))
    ensures game.Snapshot()
         == G.Predict(old(game.Snapshot()).(mask := G.MergeInput(old(game.stateMask), G.InputMask(keys), true, old(game.playerId))),
                      game.playerId, dt)
    ensures nm.outbox == old(nm.outbox)
              + (if out.Some? && nm.clientSocket.Some?
                 then [Write(nm.clientSocket.value, Encode(out.value, encodeInput, encodeState))] else [])
    ensures nm.clients == old(nm.clients) && nm.clientSocket == old(nm.clientSocket)
  {
    game.HandleInput(keys, quit);
    game.ProcessNetEvents(roleOf);
    out := sender.Send2Server(game, nm, encodeInput, encodeState, written);
    game.Update(dt);
  }

  /**
   * The handshake end to end: the server sends the newcomer at index |t| an InitMsg with
   * its parity role; when those bytes arrive (their first byte is the Init tag and the
   * client reads the role back out of them), the next ProcessNetEvents leaves that role
   * as the client's player id, whatever was queued before it.
   */
  lemma {:induction false} HandshakeSetsParityRole(t: seq<Server.PlayerMatch>, v: G.NetView, earlier: seq<NetEvent>,
                                                    encodeInit: InitMsg -> seq<byte>, roleOf: seq<byte> -> PlayerId)
    requires StartsWithTag(encodeInit(NewInitMsg(Server.ParityRole(|t|))), InitMsgType)
    requires roleOf(encodeInit(NewInitMsg(Server.ParityRole(|t|)))) == Server.ParityRole(|t|)
    ensures G.Drain(v, earlier + [ToNetEvent(encodeInit(NewInitMsg(Server.ParityRole(|t|))))], roleOf).playerId
         == Server.ParityRole(|t|)
  {
    var bytes := encodeInit(NewInitMsg(Server.ParityRole(|t|)));
    var evs := earlier + [ToNetEvent(bytes)];
    assert EventType(evs[|evs| - 1]) == Some(InitMsgType);
    G.DrainKeepsLast(v, evs, roleOf);
  }
}
