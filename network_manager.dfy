/**
 * Connection-list bookkeeping of NetworkManager (src/net/network_manager.cpp).
 *
 * Sockets are abstract ids. Every outcome of the socket library (accept, wait, read,
 * write) is an input to the method that uses it; every write a method issues is
 * appended to `outbox`, the model's record of what went out on which socket.
 */
module Net {
  import opened Options
  import opened Protocol

  /** An opaque handle for one stream socket. */
  type SocketId = nat

  /** One NET_WriteToStreamSocket call: the socket and the bytes handed to it. */
  datatype Write = Write(dest: SocketId, data: seq<byte>)

  /**
   * What one connection yields when PollClients examines it: no pending input, or
   * the return value of a read together with the bytes read (meaningful when count > 0).
   */
  datatype ReadOutcome = NoInput | Read(count: int, bytes: seq<byte>)

  /** A SendToClient call a data callback makes: target index and bytes. */
  datatype SendRequest = SendRequest(index: int, data: seq<byte>)

  /**
   * What a PollClients pass leaves behind: connection list, writes, callback state, and
   * the sockets it examined, in the order it examined them.
   */
  datatype PollResult<S> = PollResult(clients: seq<SocketId>, outbox: seq<Write>, state: S, examined: seq<SocketId>)

  /** A read of zero or fewer bytes means the peer closed or the read failed. */
  predicate Closes(o: ReadOutcome)
  {
    o.Read? && o.count <= 0
  }

  /** The writes SendToClient issues: one to clients[index] when index is in range, none otherwise. */
  function SendEffect(clients: seq<SocketId>, index: int, data: seq<byte>): (w: seq<Write>)
    ensures w != [] <==> 0 <= index < |clients|
    ensures w != [] ==> w == [Write(clients[index], data)]
  {
    if 0 <= index < |clients| then [Write(clients[index], data)] else []
  }

  /** The writes of several SendToClient calls made one after the other. */
  function SendAll(clients: seq<SocketId>, reqs: seq<SendRequest>): (w: seq<Write>)
    ensures |w| <= |reqs|
    ensures forall x :: x in w ==> x.dest in clients
  {
    if reqs == [] then []
    else SendEffect(clients, reqs[0].index, reqs[0].data) + SendAll(clients, reqs[1..])
  }

  /** One write of `data` to every connection, in list order. */
  function Fanout(clients: seq<SocketId>, data: seq<byte>): (w: seq<Write>)
    ensures |w| == |clients|
    ensures forall j :: 0 <= j < |clients| ==> w[j] == Write(clients[j], data)
  {
    if clients == [] then [] else Fanout(clients[..|clients| - 1], data) + [Write(clients[|clients| - 1], data)]
  }

  /** The connections of `cs` whose examination does not report a closed peer, in order. */
  function Survivors(cs: seq<SocketId>, probe: SocketId -> ReadOutcome): (r: seq<SocketId>)
    ensures |r| <= |cs|
  {
    if cs == [] then []
    else (if Closes(probe(cs[0])) then [] else [cs[0]]) + Survivors(cs[1..], probe)
  }

  /** Survivors of a suffix, one connection at a time. */
  lemma SurvivorsAt(cs: seq<SocketId>, i: nat, probe: SocketId -> ReadOutcome)
    requires i < |cs|
    ensures Survivors(cs[i..], probe)
         == (if Closes(probe(cs[i])) then [] else [cs[i]]) + Survivors(cs[i + 1..], probe)
  {
    assert cs[i..][1..] == cs[i + 1..];
  }

  /**
   * The rest of a PollClients pass, from loop index i of the current list `cs`: the
   * connection at i is examined; a closed one is erased, the disconnect callback gets the
   * index it had, and the same index is examined again (the `i--`); a positive read goes
   * to the data callback with the current index, and its sends go out against the
   * current list.
   */
  function PollFrom<S>(cs: seq<SocketId>, i: nat, outbox: seq<Write>, s: S, examined: seq<SocketId>,
                       probe: SocketId -> ReadOutcome,
                       onData: (S, int, seq<byte>, int) -> seq<SendRequest>,
                       onDisconnected: (S, int) -> S): PollResult<S>
    requires i <= |cs|
    decreases |cs| - i
  {
    if i == |cs| then PollResult(cs, outbox, s, examined)
    else
      var seen := examined + [cs[i]];
      match probe(cs[i])
      case NoInput => PollFrom(cs, i + 1, outbox, s, seen, probe, onData, onDisconnected)
      case Read(count, bytes) =>
        if count <= 0 then
          PollFrom(cs[..i] + cs[i + 1..], i, outbox, onDisconnected(s, i), seen, probe, onData, onDisconnected)
        else
          PollFrom(cs, i + 1, outbox + SendAll(cs, onData(s, i, bytes, count)), s, seen, probe, onData, onDisconnected)
  }

  /**
   * A poll pass keeps exactly the connections it examines without finding them closed,
   * in their order (those before index i were examined already).
   */
  lemma {:induction false} PollFromKeepsSurvivors<S>(cs: seq<SocketId>, i: nat, outbox: seq<Write>, s: S,
                                 examined: seq<SocketId>,
                                 probe: SocketId -> ReadOutcome,
                                 onData: (S, int, seq<byte>, int) -> seq<SendRequest>,
                                 onDisconnected: (S, int) -> S)
    requires i <= |cs|
    decreases |cs| - i, 1
    ensures PollFrom(cs, i, outbox, s, examined, probe, onData, onDisconnected).clients
         == cs[..i] + Survivors(cs[i..], probe)
  {
    if i == |cs| {
      assert cs[i..] == [];
    } else if Closes(probe(cs[i])) {
      ErasedKeepsSurvivors(cs, i, outbox, s, examined, probe, onData, onDisconnected);
    } else {
      KeptKeepsSurvivors(cs, i, outbox, s, examined, probe, onData, onDisconnected);
    }
  }

  /** The step of PollFromKeepsSurvivors for a connection found closed. */
  lemma {:induction false} ErasedKeepsSurvivors<S>(cs: seq<SocketId>, i: nat, outbox: seq<Write>, s: S,
                                 examined: seq<SocketId>,
                                 probe: SocketId -> ReadOutcome,
                                 onData: (S, int, seq<byte>, int) -> seq<SendRequest>,
                                 onDisconnected: (S, int) -> S)
    requires i < |cs| && Closes(probe(cs[i]))
    decreases |cs| - i, 0
    ensures PollFrom(cs, i, outbox, s, examined, probe, onData, onDisconnected).clients
         == cs[..i] + Survivors(cs[i..], probe)
  {
    var rest := cs[..i] + cs[i + 1..];
    var seen := examined + [cs[i]];
    SurvivorsAt(cs, i, probe);
    assert PollFrom(cs, i, outbox, s, examined, probe, onData, onDisconnected)
        == PollFrom(rest, i, outbox, onDisconnected(s, i), seen, probe, onData, onDisconnected);
    PollFromKeepsSurvivors(rest, i, outbox, onDisconnected(s, i), seen, probe, onData, onDisconnected);
    assert rest[..i] == cs[..i] && rest[i..] == cs[i + 1..];
  }

  /** The step of PollFromKeepsSurvivors for a connection that stays. */
  lemma {:induction false} KeptKeepsSurvivors<S>(cs: seq<SocketId>, i: nat, outbox: seq<Write>, s: S,
                                 examined: seq<SocketId>,
                                 probe: SocketId -> ReadOutcome,
                                 onData: (S, int, seq<byte>, int) -> seq<SendRequest>,
                                 onDisconnected: (S, int) -> S)
    requires i < |cs| && !Closes(probe(cs[i]))
    decreases |cs| - i, 0
    ensures PollFrom(cs, i, outbox, s, examined, probe, onData, onDisconnected).clients
         == cs[..i] + Survivors(cs[i..], probe)
  {
    var c := cs[i];
    var seen := examined + [c];
    var tail := Survivors(cs[i + 1..], probe);
    var out' := if probe(c).Read? then outbox + SendAll(cs, onData(s, i, probe(c).bytes, probe(c).count)) else outbox;
    SurvivorsAt(cs, i, probe);
    assert PollFrom(cs, i, outbox, s, examined, probe, onData, onDisconnected)
        == PollFrom(cs, i + 1, out', s, seen, probe, onData, onDisconnected);
    PollFromKeepsSurvivors(cs, i + 1, out', s, seen, probe, onData, onDisconnected);
    assert cs[..i + 1] + tail == cs[..i] + ([c] + tail);
  }

  /**
   * A poll pass examines every connection from index i on exactly once, in list order:
   * the `i--` after an erase makes the connection shifted into the freed index the next
   * one examined.
   */
  lemma {:induction false} PollFromExaminesEachOnce<S>(cs: seq<SocketId>, i: nat, outbox: seq<Write>, s: S,
                                 examined: seq<SocketId>,
                                 probe: SocketId -> ReadOutcome,
                                 onData: (S, int, seq<byte>, int) -> seq<SendRequest>,
                                 onDisconnected: (S, int) -> S)
    requires i <= |cs|
    decreases |cs| - i
    ensures PollFrom(cs, i, outbox, s, examined, probe, onData, onDisconnected).examined
         == examined + cs[i..]
  {
    if i == |cs| {
      assert cs[i..] == [];
    } else {
      var c := cs[i];
      var seen := examined + [c];
      assert examined + cs[i..] == seen + cs[i + 1..];
      match probe(c)
      case NoInput =>
        PollFromExaminesEachOnce(cs, i + 1, outbox, s, seen, probe, onData, onDisconnected);
      case Read(count, bytes) =>
        if count <= 0 {
          var rest := cs[..i] + cs[i + 1..];
          PollFromExaminesEachOnce(rest, i, outbox, onDisconnected(s, i), seen, probe, onData, onDisconnected);
          assert rest[i..] == cs[i + 1..];
        } else {
          var out' := outbox + SendAll(cs, onData(s, i, bytes, count));
          PollFromExaminesEachOnce(cs, i + 1, out', s, seen, probe, onData, onDisconnected);
        }
    }
  }

  /** Writes issued before a poll pass are never taken back by it. */
  lemma {:induction false} PollFromOnlyAppends<S>(cs: seq<SocketId>, i: nat, outbox: seq<Write>, s: S,
                                 examined: seq<SocketId>,
                                 probe: SocketId -> ReadOutcome,
                                 onData: (S, int, seq<byte>, int) -> seq<SendRequest>,
                                 onDisconnected: (S, int) -> S)
    requires i <= |cs|
    decreases |cs| - i
    ensures outbox <= PollFrom(cs, i, outbox, s, examined, probe, onData, onDisconnected).outbox
  {
    if i < |cs| {
      var seen := examined + [cs[i]];
      match probe(cs[i])
      case NoInput =>
        PollFromOnlyAppends(cs, i + 1, outbox, s, seen, probe, onData, onDisconnected);
      case Read(count, bytes) =>
        if count <= 0 {
          PollFromOnlyAppends(cs[..i] + cs[i + 1..], i, outbox, onDisconnected(s, i), seen, probe, onData, onDisconnected);
        } else {
          var out' := outbox + SendAll(cs, onData(s, i, bytes, count));
          PollFromOnlyAppends(cs, i + 1, out', s, seen, probe, onData, onDisconnected);
        }
    }
  }

  class NetworkManager {
    /** clients_: the server's live connections; a position in it is a connection's index. */
    var clients: seq<SocketId>
    /** client_socket_: the client's one connection, or none before a successful connect. */
    var clientSocket: Option<SocketId>
    /** Every write issued so far, in order. */
    var outbox: seq<Write>

    constructor ()
      ensures clients == [] && clientSocket == None && outbox == []
    {
      clients := [];
      clientSocket := None;
      outbox := [];
    }

    /**
     * AcceptClients: `accepted` is what NET_AcceptClient returned and `socket` the socket it
     * produced (None for a null pointer). Exactly one connection is appended, and true
     * returned, only when both say a socket arrived.
     */
    method AcceptClients(accepted: bool, socket: Option<SocketId>) returns (added: bool)
      modifies this
      ensures added <==> accepted && socket.Some?
      ensures clients == if added then old(clients) + [socket.value] else old(clients)
      ensures clientSocket == old(clientSocket) && outbox == old(outbox)
    {
      added := false;
      if accepted {
        if socket.Some? {
          clients := clients + [socket.value];
          added := true;
        }
      }
    }

    /** Broadcast: one write per connection, in list order; the write results are ignored. */
    method Broadcast(data: seq<byte>)
      modifies this
      ensures outbox == old(outbox) + Fanout(clients, data)
      ensures clients == old(clients) && clientSocket == old(clientSocket)
    {
      var i := 0;
      while i < |clients|
        invariant 0 <= i <= |clients|
        invariant outbox == old(outbox) + Fanout(clients[..i], data)
        invariant clients == old(clients) && clientSocket == old(clientSocket)
      {
        assert clients[..i + 1][..i] == clients[..i];
        outbox := outbox + [Write(clients[i], data)];
        i := i + 1;
      }
      assert clients[..i] == clients;
    }

    /**
     * SendToClient: an index outside [0, |clients|) is refused without writing; otherwise one
     * write goes to that connection and success means all bytes were written. `written` is
     * what NET_WriteToStreamSocket returned.
     */
    method SendToClient(index: int, data: seq<byte>, written: int) returns (ok: bool)
      modifies this
      ensures ok <==> 0 <= index < |clients| && written == |data|
      ensures outbox == old(outbox) + SendEffect(clients, index, data)
      ensures clients == old(clients) && clientSocket == old(clientSocket)
    {
      if index < 0 || index >= |clients| {
        return false;
      }
      outbox := outbox + [Write(clients[index], data)];
      ok := written == |data|;
    }

    /**
     * SendToServer: without a client socket nothing is written and false is returned;
     * otherwise success means all bytes were written. `written` is what
     * NET_WriteToStreamSocket returned.
     */
    method SendToServer(data: seq<byte>, written: int) returns (ok: bool)
      modifies this
      ensures ok <==> clientSocket.Some? && written == |data|
      ensures outbox == old(outbox) + (if clientSocket.Some? then [Write(clientSocket.value, data)] else [])
      ensures clients == old(clients) && clientSocket == old(clientSocket)
    {
      if clientSocket == None {
        return false;
      }
      outbox := outbox + [Write(clientSocket.value, data)];
      ok := written == |data|;
    }

    /**
     * PollClients: one pass over the connection list. `probe` gives what waiting on and
     * reading from each socket yields; the callbacks are given as functions of the callback
     * state `s`. The ghost `examined` lists the sockets in the order the loop looked at them:
     * every connection present at the start exactly once, including the one shifted into a
     * removed connection's place.
     */
    method PollClients<S>(s0: S, probe: SocketId -> ReadOutcome,
                          onData: (S, int, seq<byte>, int) -> seq<SendRequest>,
                          onDisconnected: (S, int) -> S)
      returns (s: S, ghost examined: seq<SocketId>)
      modifies this
      ensures PollResult(clients, outbox, s, examined)
           == PollFrom(old(clients), 0, old(outbox), s0, [], probe, onData, onDisconnected)
      ensures examined == old(clients)
      ensures clients == Survivors(old(clients), probe)
      ensures old(outbox) <= outbox
      ensures clientSocket == old(clientSocket)
    {
      s := s0;
      examined := [];
      var i: int := 0;
      while i < |clients|
        invariant 0 <= i <= |clients|
        invariant PollFrom(clients, i, outbox, s, examined, probe, onData, onDisconnected)
               == PollFrom(old(clients), 0, old(outbox), s0, [], probe, onData, onDisconnected)
        invariant clientSocket == old(clientSocket)
        decreases |clients| - i
      {
        var c := clients[i];
        examined := examined + [c];
        match probe(c) {
          case NoInput =>
          case Read(count, bytes) =>
            if count <= 0 {
              clients := clients[..i] + clients[i + 1..];
              s := onDisconnected(s, i);
              i := i - 1;
            } else {
              outbox := outbox + SendAll(clients, onData(s, i, bytes, count));
            }
        }
        i := i + 1;
      }
      PollFromKeepsSurvivors(old(clients), 0, old(outbox), s0, [], probe, onData, onDisconnected);
      PollFromExaminesEachOnce(old(clients), 0, old(outbox), s0, [], probe, onData, onDisconnected);
      PollFromOnlyAppends(old(clients), 0, old(outbox), s0, [], probe, onData, onDisconnected);
      assert old(clients)[0..] == old(clients);
    }
  }
}
