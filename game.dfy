/**
 * Client-side game state of PongNet (src/game/game.cpp): the key mask, the drain of the
 * network event queue, local prediction, and the offline physics step with its clamping
 * and ball-direction bits.
 *
 * Positions are reals. `speed * dt` is computed as written but is otherwise an opaque
 * displacement: nothing here depends on float rounding, and clamping yields exactly 0 or
 * the far bound. SDL (window, renderer, colours, event polling) is left out; the keyboard
 * state and whether a quit/escape event arrived are inputs.
 */
module Game {
  import opened Options
  import opened Protocol

  const WindowWidth: real := 800.0
  const WindowHeight: real := 600.0

  /** state_mask_ bits: 0/1 = player 1 up/down, 2/3 = player 2 up/down, 4/5 = ball moves right/down. */
  const P1Up: byte := 0x01
  const P1Down: byte := 0x02
  const P2Up: byte := 0x04
  const P2Down: byte := 0x08
  const BallRight: byte := 0x10
  const BallDown: byte := 0x20

  /** SDL_FRect. */
  datatype Rect = Rect(x: real, y: real, w: real, h: real)

  /** struct Player and struct RectObject without their colours. */
  datatype Player = Player(body: Rect, speed: real)
  datatype RectObject = RectObject(body: Rect, speed: real)

  /** The four keys HandleInput reads from the keyboard state. */
  datatype KeyState = KeyState(w: bool, s: bool, up: bool, down: bool)

  /** What the physics and prediction steps read and write. */
  datatype Scene = Scene(ball: RectObject, p1: Player, p2: Player, mask: byte)

  /** What ProcessNetEvents reads and writes: the local role and the buffered server state. */
  datatype NetView = NetView(playerId: PlayerId, latest: Option<seq<byte>>)

  predicate Has(mask: byte, bit: byte)
  {
    mask & bit != 0
  }

  /** The input mask of HandleInput: W, S, Up, Down on bits 0, 1, 2, 3, nothing above. */
  function InputMask(keys: KeyState): (m: byte)
    ensures m & 0xF0 == 0
    ensures Has(m, P1Up) <==> keys.w
    ensures Has(m, P1Down) <==> keys.s
    ensures Has(m, P2Up) <==> keys.up
    ensures Has(m, P2Down) <==> keys.down
  {
    (if keys.w then P1Up else 0) | (if keys.s then P1Down else 0)
      | (if keys.up then P2Up else 0) | (if keys.down then P2Down else 0)
  }

  /**
   * The new state_mask_ of HandleInput: the upper nibble (ball direction) is kept, the
   * lower nibble is replaced by the keys this client controls — all four offline, bits
   * 0-1 online as Player1, bits 2-3 online as Player2.
   */
  function MergeInput(mask: byte, input: byte, online: bool, role: PlayerId): (r: byte)
    ensures input & 0xF0 == 0 ==> r & 0xF0 == mask & 0xF0
    ensures !online ==> r & 0x0F == input & 0x0F
    ensures online && role == Player1 ==> r & 0x0F == input & 0x03
    ensures online && role == Player2 ==> r & 0x0F == input & 0x0C
  {
    var kept := mask & 0xF0;
    if !online then kept | input
    else if role == Player1 then kept | (input & 0x03)
    else kept | (input & 0x0C)
  }

  /** `y -= d` if moving up, then `y += d` if moving down. */
  function Move(y: real, d: real, up: bool, down: bool): real
  {
    var y1 := if up then y - d else y;
    if down then y1 + d else y1
  }

  /** The player bound limit: below 0 goes to 0, beyond WindowHeight - h goes to WindowHeight - h. */
  function ClampY(y: real, h: real): (r: real)
    ensures h <= WindowHeight ==> 0.0 <= r <= WindowHeight - h
    ensures y < 0.0 ==> r == 0.0
    ensures 0.0 <= y && y > WindowHeight - h ==> r == WindowHeight - h
    ensures 0.0 <= y <= WindowHeight - h ==> r == y
  {
    if y < 0.0 then 0.0 else if y > WindowHeight - h then WindowHeight - h else y
  }

  function WithY(p: Player, y: real): Player
  {
    p.(body := p.body.(y := y))
  }

  /** AABB_Collision: the open rectangles overlap on both axes (strict inequalities). */
  function AabbCollision(a: Rect, b: Rect): bool
  {
    a.x < b.x + b.w && a.x + a.w > b.x && a.y < b.y + b.h && a.y + a.h > b.y
  }

  /** A point strictly inside a rectangle. */
  predicate Inside(r: Rect, px: real, py: real)
  {
    r.x < px < r.x + r.w && r.y < py < r.y + r.h
  }

  function Max(a: real, b: real): real { if a < b then b else a }
  function Min(a: real, b: real): real { if a < b then a else b }

  /**
   * For rectangles of positive size, AABB_Collision holds exactly when some point lies
   * strictly inside both.
   */
  lemma AabbMeansCommonPoint(a: Rect, b: Rect)
    requires a.w > 0.0 && a.h > 0.0 && b.w > 0.0 && b.h > 0.0
    ensures AabbCollision(a, b) <==> exists px, py :: Inside(a, px, py) && Inside(b, px, py)
  {
    if AabbCollision(a, b) {
      var px := (Max(a.x, b.x) + Min(a.x + a.w, b.x + b.w)) / 2.0;
      var py := (Max(a.y, b.y) + Min(a.y + a.h, b.y + b.h)) / 2.0;
      assert Inside(a, px, py) && Inside(b, px, py);
    }
  }

  /** PredictLocalPlayer: only the local player's y moves, by its own two mask bits. */
  function Predict(sc: Scene, role: PlayerId, dt: real): (r: Scene)
    ensures r.ball == sc.ball && r.mask == sc.mask
    ensures role == Player1 ==> r.p2 == sc.p2
    ensures role == Player1 ==>
              r.p1 == WithY(sc.p1, Move(sc.p1.body.y, sc.p1.speed * dt, Has(sc.mask, P1Up), Has(sc.mask, P1Down)))
    ensures role == Player2 ==> r.p1 == sc.p1
    ensures role == Player2 ==>
              r.p2 == WithY(sc.p2, Move(sc.p2.body.y, sc.p2.speed * dt, Has(sc.mask, P2Up), Has(sc.mask, P2Down)))
  {
    if role == Player1 then
      sc.(p1 := WithY(sc.p1, Move(sc.p1.body.y, sc.p1.speed * dt, Has(sc.mask, P1Up), Has(sc.mask, P1Down))))
    else
      sc.(p2 := WithY(sc.p2, Move(sc.p2.body.y, sc.p2.speed * dt, Has(sc.mask, P2Up), Has(sc.mask, P2Down))))
  }

  /** The ball's x after moving, before the bound limit. */
  function BallMovedX(sc: Scene, dt: real): real
  {
    if Has(sc.mask, BallRight) then sc.ball.body.x + sc.ball.speed * dt else sc.ball.body.x - sc.ball.speed * dt
  }

  /** The ball's y after moving, before the bound limit. */
  function BallMovedY(sc: Scene, dt: real): real
  {
    if Has(sc.mask, BallDown) then sc.ball.body.y + sc.ball.speed * dt else sc.ball.body.y - sc.ball.speed * dt
  }

  /**
   * Hitting an edge sets or clears a direction bit: below 0 clamps to 0 and sets it,
   * beyond `far` clamps to `far` and clears it; otherwise position and mask stay.
   */
  function Bounce(v: real, far: real, mask: byte, bit: byte): (r: (real, byte))
    requires bit == BallRight || bit == BallDown
    ensures 0.0 <= far ==> 0.0 <= r.0 <= far
    ensures v < 0.0 ==> r.0 == 0.0
    ensures 0.0 <= v && v > far ==> r.0 == far
    ensures 0.0 <= v <= far ==> r.0 == v
    ensures r.1 & !bit == mask & !bit
    ensures Has(r.1, bit) <==> v < 0.0 || (v <= far && Has(mask, bit))
  {
    (if v < 0.0 then 0.0 else if v > far then far else v, EdgeMask(v < 0.0, v > far, mask, bit))
  }

  /** The mask after an edge test: set the bit below the near edge, clear it beyond the far one. */
  function EdgeMask(below: bool, beyond: bool, mask: byte, bit: byte): (m: byte)
    requires bit == BallRight || bit == BallDown
    ensures m & !bit == mask & !bit
    ensures Has(m, bit) <==> below || (!beyond && Has(mask, bit))
  {
    if below then mask | bit else if beyond then mask & !bit else mask
  }

  /** The paddle rule: a hit on player 1 sets bit 4, else a hit on player 2 clears it. */
  function Paddles(p1: Rect, p2: Rect, ball: Rect, mask: byte): (r: byte)
    ensures r & 0xEF == mask & 0xEF
    ensures AabbCollision(p1, ball) ==> Has(r, BallRight)
    ensures !AabbCollision(p1, ball) && AabbCollision(p2, ball) ==> !Has(r, BallRight)
    ensures !AabbCollision(p1, ball) && !AabbCollision(p2, ball) ==> r == mask
  {
    if AabbCollision(p1, ball) then mask | BallRight
    else if AabbCollision(p2, ball) then mask & !BallRight
    else mask
  }

  /**
   * The offline branch of Update: move both players by their mask bits and the ball by
   * its direction bits, clamp the players vertically, clamp the ball and flip its
   * direction bits at the edges, then apply the paddle rule.
   */
  function OfflineStep(sc: Scene, dt: real): Scene
  {
    Collide(LimitBall(LimitPlayers(MoveAll(sc, dt))))
  }

  /** First stage: both players by their mask bits, the ball by its direction bits. */
  function MoveAll(sc: Scene, dt: real): Scene
  {
    var m := sc.mask;
    sc.(p1 := WithY(sc.p1, Move(sc.p1.body.y, sc.p1.speed * dt, Has(m, P1Up), Has(m, P1Down))),
        p2 := WithY(sc.p2, Move(sc.p2.body.y, sc.p2.speed * dt, Has(m, P2Up), Has(m, P2Down))),
        ball := sc.ball.(body := sc.ball.body.(x := BallMovedX(sc, dt), y := BallMovedY(sc, dt))))
  }

  /** Second stage: the player bound limit. */
  function LimitPlayers(sc: Scene): Scene
  {
    sc.(p1 := WithY(sc.p1, ClampY(sc.p1.body.y, sc.p1.body.h)),
        p2 := WithY(sc.p2, ClampY(sc.p2.body.y, sc.p2.body.h)))
  }

  /** Third stage: the ball bound limit, x first, then y. */
  function LimitBall(sc: Scene): Scene
  {
    LimitBallY(LimitBallX(sc))
  }

  /** The ball's x against the left and right edges, bit 4. */
  function LimitBallX(sc: Scene): Scene
  {
    var xs := Bounce(sc.ball.body.x, WindowWidth - sc.ball.body.w, sc.mask, BallRight);
    sc.(ball := sc.ball.(body := sc.ball.body.(x := xs.0)), mask := xs.1)
  }

  /** The ball's y against the top and bottom edges, bit 5. */
  function LimitBallY(sc: Scene): Scene
  {
    var ys := Bounce(sc.ball.body.y, WindowHeight - sc.ball.body.h, sc.mask, BallDown);
    sc.(ball := sc.ball.(body := sc.ball.body.(y := ys.0)), mask := ys.1)
  }

  /** Last stage: the paddle rule. */
  function Collide(sc: Scene): Scene
  {
    sc.(mask := Paddles(sc.p1.body, sc.p2.body, sc.ball.body, sc.mask))
  }

  /**
   * The bound limits of the offline step: each paddle ends inside [0, WindowHeight - h],
   * the ball inside the window, whatever the displacement; paddles never move sideways.
   */
  lemma OfflineStepStaysInWindow(sc: Scene, dt: real)
    ensures var r := OfflineStep(sc, dt);
      && (sc.p1.body.h <= WindowHeight ==> 0.0 <= r.p1.body.y <= WindowHeight - sc.p1.body.h)
      && (sc.p2.body.h <= WindowHeight ==> 0.0 <= r.p2.body.y <= WindowHeight - sc.p2.body.h)
      && (sc.ball.body.w <= WindowWidth ==> 0.0 <= r.ball.body.x <= WindowWidth - sc.ball.body.w)
      && (sc.ball.body.h <= WindowHeight ==> 0.0 <= r.ball.body.y <= WindowHeight - sc.ball.body.h)
      && r.p1.body.x == sc.p1.body.x && r.p2.body.x == sc.p2.body.x
  {
  }

  /**
   * The direction bits of the offline step. Bits 0-3, 6 and 7 are untouched. Bit 4: a hit
   * on player 1 sets it; otherwise a hit on player 2 clears it; otherwise it is set by
   * reaching the left edge, cleared by passing the right edge, and else kept. Bit 5: set
   * at the top edge, cleared past the bottom edge, else kept.
   */
  lemma OfflineStepDirections(sc: Scene, dt: real)
    ensures var r := OfflineStep(sc, dt);
      && r.mask & 0xCF == sc.mask & 0xCF
      && (AabbCollision(r.p1.body, r.ball.body) ==> Has(r.mask, BallRight))
      && (!AabbCollision(r.p1.body, r.ball.body) && AabbCollision(r.p2.body, r.ball.body) ==>
            !Has(r.mask, BallRight))
      && (!AabbCollision(r.p1.body, r.ball.body) && !AabbCollision(r.p2.body, r.ball.body) ==>
            (Has(r.mask, BallRight) <==>
                   BallMovedX(sc, dt) < 0.0
                   || (BallMovedX(sc, dt) <= WindowWidth - sc.ball.body.w && Has(sc.mask, BallRight))))
      && (Has(r.mask, BallDown) <==>
            BallMovedY(sc, dt) < 0.0
            || (BallMovedY(sc, dt) <= WindowHeight - sc.ball.body.h && Has(sc.mask, BallDown)))
  {
  }

  /**
   * The offline branch of Game::Update, statement by statement, on a copy of the fields
   * it touches. Its four stages are the methods below.
   */
  method OfflineUpdate(sc: Scene, dt: real) returns (r: Scene)
    ensures r == OfflineStep(sc, dt)
  {
    var moved := MoveStage(sc, dt);
    var limited := LimitPlayersStage(moved);
    r := LimitBallStage(limited);
    // paddles
    if AabbCollision(r.p1.body, r.ball.body) {
      r := r.(mask := r.mask | BallRight);
    } else if AabbCollision(r.p2.body, r.ball.body) {
      r := r.(mask := r.mask & !BallRight);
    }
  }

  /** Update's move statements: players by their bits, then the ball by its direction bits. */
  method MoveStage(sc: Scene, dt: real) returns (r: Scene)
    ensures r == MoveAll(sc, dt)
  {
    var p1, p2, b, mask := sc.p1, sc.p2, sc.ball, sc.mask;
    // players
    if mask & P1Up != 0 { p1 := WithY(p1, p1.body.y - p1.speed * dt); }
    if mask & P1Down != 0 { p1 := WithY(p1, p1.body.y + p1.speed * dt); }
    if mask & P2Up != 0 { p2 := WithY(p2, p2.body.y - p2.speed * dt); }
    if mask & P2Down != 0 { p2 := WithY(p2, p2.body.y + p2.speed * dt); }
    // ball left/right and up/down move
    if mask & BallRight != 0 {
      b := b.(body := b.body.(x := b.body.x + b.speed * dt));
    } else {
      b := b.(body := b.body.(x := b.body.x - b.speed * dt));
    }
    if mask & BallDown != 0 {
      b := b.(body := b.body.(y := b.body.y + b.speed * dt));
    } else {
      b := b.(body := b.body.(y := b.body.y - b.speed * dt));
    }
    r := Scene(b, p1, p2, mask);
  }

  /** Update's player bound limit. */
  method LimitPlayersStage(sc: Scene) returns (r: Scene)
    ensures r == LimitPlayers(sc)
  {
    var p1, p2 := sc.p1, sc.p2;
    if p1.body.y < 0.0 {
      p1 := WithY(p1, 0.0);
    } else if p1.body.y > WindowHeight - p1.body.h {
      p1 := WithY(p1, WindowHeight - p1.body.h);
    }
    if p2.body.y < 0.0 {
      p2 := WithY(p2, 0.0);
    } else if p2.body.y > WindowHeight - p2.body.h {
      p2 := WithY(p2, WindowHeight - p2.body.h);
    }
    r := sc.(p1 := p1, p2 := p2);
  }

  /** Update's ball bound limit: x first, then y. */
  method LimitBallStage(sc: Scene) returns (r: Scene)
    ensures r == LimitBall(sc)
  {
    r := LimitBallXStage(sc);
    r := LimitBallYStage(r);
  }

  /** The left and right edges. */
  method LimitBallXStage(sc: Scene) returns (r: Scene)
    ensures r == LimitBallX(sc)
  {
    var x, mx := LimitAxis(sc.ball.body.x, WindowWidth - sc.ball.body.w, sc.mask, BallRight);
    r := sc.(ball := sc.ball.(body := sc.ball.body.(x := x)), mask := mx);
  }

  /** The top and bottom edges. */
  method LimitBallYStage(sc: Scene) returns (r: Scene)
    ensures r == LimitBallY(sc)
  {
    var y, my := LimitAxis(sc.ball.body.y, WindowHeight - sc.ball.body.h, sc.mask, BallDown);
    r := sc.(ball := sc.ball.(body := sc.ball.body.(y := y)), mask := my);
  }

  /** One axis of the ball bound limit: clamp at 0 and set the bit, or at `far` and clear it. */
  method LimitAxis(v: real, far: real, mask: byte, bit: byte) returns (w: real, m: byte)
    requires bit == BallRight || bit == BallDown
    ensures (w, m) == Bounce(v, far, mask, bit)
  {
    w, m := v, mask;
    if v < 0.0 {
      w, m := 0.0, mask | bit;
    } else if v > far {
      w, m := far, mask & !bit;
    }
  }

  /** One event of the queue, by kind; PlayerInput and unknown kinds change nothing. */
  function Handle(v: NetView, e: NetEvent, roleOf: seq<byte> -> PlayerId): NetView
  {
    match EventType(e)
    case Some(InitMsgType) => v.(playerId := roleOf(e.data))
    case Some(GameStateMsgType) => v.(latest := Some(e.data))
    case _ => v
  }

  /** Handling a queue front to back. */
  function Drain(v: NetView, evs: seq<NetEvent>, roleOf: seq<byte> -> PlayerId): NetView
    decreases |evs|
  {
    if evs == [] then v else Drain(Handle(v, evs[0], roleOf), evs[1..], roleOf)
  }

  /** The index of the last event of kind `t`, or -1 when there is none. */
  function LastOfKind(evs: seq<NetEvent>, t: MessageType): (k: int)
    ensures -1 <= k < |evs|
    ensures k >= 0 ==> EventType(evs[k]) == Some(t)
    ensures forall j :: k < j < |evs| ==> EventType(evs[j]) != Some(t)
  {
    if evs == [] then -1
    else if EventType(evs[|evs| - 1]) == Some(t) then |evs| - 1
    else LastOfKind(evs[..|evs| - 1], t)
  }

  /**
   * An independent account of a drain: the role of the last Init event and the bytes
   * of the last GameState event; where there is none, the value from before.
   */
  function Expected(v: NetView, evs: seq<NetEvent>, roleOf: seq<byte> -> PlayerId): NetView
  {
    var ki := LastOfKind(evs, InitMsgType);
    var ks := LastOfKind(evs, GameStateMsgType);
    NetView(if ki >= 0 then roleOf(evs[ki].data) else v.playerId,
            if ks >= 0 then Some(evs[ks].data) else v.latest)
  }

  /** Draining a concatenation is draining one part after the other. */
  lemma {:induction false} DrainAppend(v: NetView, a: seq<NetEvent>, b: seq<NetEvent>, roleOf: seq<byte> -> PlayerId)
    ensures Drain(v, a + b, roleOf) == Drain(Drain(v, a, roleOf), b, roleOf)
    decreases |a|
  {
    if a != [] {
      assert (a + b)[0] == a[0];
      assert (a + b)[1..] == a[1..] + b;
      DrainAppend(Handle(v, a[0], roleOf), a[1..], b, roleOf);
    } else {
      assert a + b == b;
    }
  }

  /** ProcessNetEvents keeps the last Init role and the last GameState bytes. */
  lemma {:induction false} DrainKeepsLast(v: NetView, evs: seq<NetEvent>, roleOf: seq<byte> -> PlayerId)
    ensures Drain(v, evs, roleOf) == Expected(v, evs, roleOf)
    decreases |evs|
  {
    if evs != [] {
      var init := evs[..|evs| - 1];
      var e := evs[|evs| - 1];
      assert evs == init + [e];
      DrainAppend(v, init, [e], roleOf);
      DrainKeepsLast(v, init, roleOf);
      assert Drain(Drain(v, init, roleOf), [e], roleOf) == Handle(Drain(v, init, roleOf), e, roleOf);
    }
  }

  /** The client's game: the fields of class Game that the modelled operations use. */
  class Game {
    var ball: RectObject
    var player1: Player
    var player2: Player
    var running: bool
    var stateMask: byte
    var isOnline: bool
    var playerId: PlayerId
    var netEvents: seq<NetEvent>
    var latestServerState: Option<seq<byte>>

    function Snapshot(): Scene
      reads this
    {
      Scene(ball, player1, player2, stateMask)
    }

    function View(): NetView
      reads this
    {
      NetView(playerId, latestServerState)
    }

    /**
     * Game::Init after SDL came up: the ball centred, both paddles vertically centred at
     * the two side edges, offline as Player1, all direction bits clear. The sizes and
     * speeds come from constants declared outside this model, so they are parameters.
     */
    constructor (ballSpeed: real, ballW: real, ballH: real, playerSpeed: real, playerW: real, playerH: real)
      ensures ball == RectObject(Rect((WindowWidth - ballW) / 2.0, (WindowHeight - ballH) / 2.0, ballW, ballH), ballSpeed)
      ensures player1 == Player(Rect(0.0, (WindowHeight - playerH) / 2.0, playerW, playerH), playerSpeed)
      ensures player2 == Player(Rect(WindowWidth - playerW, (WindowHeight - playerH) / 2.0, playerW, playerH), playerSpeed)
      ensures running && !isOnline && stateMask == 0 && playerId == Player1
      ensures netEvents == [] && latestServerState == None
    {
      ball := RectObject(Rect((WindowWidth - ballW) / 2.0, (WindowHeight - ballH) / 2.0, ballW, ballH), ballSpeed);
      var y := (WindowHeight - playerH) / 2.0;
      player1 := Player(Rect(0.0, y, playerW, playerH), playerSpeed);
      player2 := Player(Rect(WindowWidth - playerW, y, playerW, playerH), playerSpeed);
      playerId := Player1;
      running := true;
      isOnline := false;
      stateMask := 0;
      netEvents := [];
      latestServerState := None;
    }

    /** get_player: player 1 or player 2 by role. */
    function GetPlayer(id: PlayerId): (p: Player)
      reads this
      ensures id == Player1 ==> p == player1
      ensures id == Player2 ==> p == player2
    {
      if id == Player1 then player1 else player2
    }

    /** set_player: replaces the player of that role and nothing else. */
    method SetPlayer(id: PlayerId, p: Player)
      modifies this
      ensures GetPlayer(id) == p
      ensures GetPlayer(Opposite(id)) == old(GetPlayer(Opposite(id)))
      ensures ball == old(ball) && stateMask == old(stateMask) && View() == old(View())
      ensures running == old(running) && isOnline == old(isOnline) && netEvents == old(netEvents)
    {
      if id == Player1 {
        player1 := p;
      } else {
        player2 := p;
      }
    }

    /** set_is_online. */
    method SetIsOnline(online: bool)
      modifies this
      ensures isOnline == online
      ensures Snapshot() == old(Snapshot()) && View() == old(View())
      ensures running == old(running) && netEvents == old(netEvents)
    {
      isOnline := online;
    }

    /** AddNetEvent: push at the back of the queue. */
    method AddNetEvent(e: NetEvent)
      modifies this
      ensures netEvents == old(netEvents) + [e]
      ensures Snapshot() == old(Snapshot()) && View() == old(View())
      ensures running == old(running) && isOnline == old(isOnline)
    {
      netEvents := netEvents + [e];
    }

    /**
     * HandleInput: a quit or escape event stops the game; the key mask replaces the
     * controllable bits of state_mask_.
     */
    method HandleInput(keys: KeyState, quit: bool)
      modifies this
      ensures running == (old(running) && !quit)
      ensures stateMask == MergeInput(old(stateMask), InputMask(keys), isOnline, playerId)
      ensures stateMask & 0xF0 == old(stateMask) & 0xF0
      ensures ball == old(ball) && player1 == old(player1) && player2 == old(player2)
      ensures isOnline == old(isOnline) && View() == old(View()) && netEvents == old(netEvents)
    {
      if quit {
        running := false;
      }
      var inputMask: byte := 0;
      if keys.w { inputMask := inputMask | P1Up; }
      if keys.s { inputMask := inputMask | P1Down; }
      if keys.up { inputMask := inputMask | P2Up; }
      if keys.down { inputMask := inputMask | P2Down; }
      assert inputMask == InputMask(keys);
      var mask := stateMask & 0xF0;  // keep the ball direction, reset the player moves
      if isOnline {
        match playerId {
          case Player1 => mask := mask | (inputMask & 0x03);
          case Player2 => mask := mask | (inputMask & 0x0C);
        }
      } else {
        mask := mask | inputMask;
      }
      stateMask := mask;
    }

    /** ProcessNetEvents: handle the queue front to back until it is empty. */
    method ProcessNetEvents(roleOf: seq<byte> -> PlayerId)
      modifies this
      ensures netEvents == []
      ensures View() == Drain(old(View()), old(netEvents), roleOf)
      ensures Snapshot() == old(Snapshot()) && running == old(running) && isOnline == old(isOnline)
    {
      while netEvents != []
        invariant Drain(View(), netEvents, roleOf) == Drain(old(View()), old(netEvents), roleOf)
        invariant Snapshot() == old(Snapshot()) && running == old(running) && isOnline == old(isOnline)
        decreases |netEvents|
      {
        var ne := netEvents[0];
        match TypeOfTag(ne.kind) {
          case Some(InitMsgType) =>
            playerId := roleOf(ne.data);
          case Some(GameStateMsgType) =>
            latestServerState := Some(ne.data);
          case _ =>
        }
        netEvents := netEvents[1..];
      }
    }

    /** PredictLocalPlayer. */
    method PredictLocalPlayer(dt: real)
      modifies this
      ensures Snapshot() == Predict(old(Snapshot()), playerId, dt)
      ensures playerId == old(playerId) && latestServerState == old(latestServerState)
      ensures running == old(running) && isOnline == old(isOnline) && netEvents == old(netEvents)
    {
      if playerId == Player1 {
        if stateMask & P1Up != 0 { player1 := WithY(player1, player1.body.y - player1.speed * dt); }
        if stateMask & P1Down != 0 { player1 := WithY(player1, player1.body.y + player1.speed * dt); }
      } else {
        if stateMask & P2Up != 0 { player2 := WithY(player2, player2.body.y - player2.speed * dt); }
        if stateMask & P2Down != 0 { player2 := WithY(player2, player2.body.y + player2.speed * dt); }
      }
    }

    /** Update: online, local prediction (the server-state smoothing is left out); offline, the physics step. */
    method Update(dt: real)
      modifies this
      ensures isOnline ==> Snapshot() == Predict(old(Snapshot()), playerId, dt)
      ensures !isOnline ==> Snapshot() == OfflineStep(old(Snapshot()), dt)
      ensures playerId == old(playerId) && latestServerState == old(latestServerState)
      ensures running == old(running) && isOnline == old(isOnline) && netEvents == old(netEvents)
    {
      if isOnline {
        PredictLocalPlayer(dt);
      } else {
        var r := OfflineUpdate(Snapshot(), dt);
        ball, player1, player2, stateMask := r.ball, r.p1, r.p2, r.mask;
      }
    }
  }
}
