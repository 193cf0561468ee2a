/**
 * The pong server's pairing table and main-loop step (src/pong_server.cpp).
 *
 * The table `cs_match` runs parallel to the connection list: entry k belongs to connection
 * k and holds the role the server stored for it and the index of its partner (-1 when it
 * has none). It is a local of the server's main function, captured by reference by the two
 * callbacks; here it is a value threaded through the step. An access outside the table,
 * which C++ leaves undefined, ends the table in `Undefined`.
 */
module Server {
  import opened Options
  import opened Protocol
  import opened Net

  /** struct PlayerMatch: stored role and partner index. */
  datatype PlayerMatch = PlayerMatch(id: PlayerId, matchPlayerIndex: int)

  /** The partner index of an entry that has no partner. */
  const Unmatched: int := -1

  /** The pairing table, or the index of the out-of-range access that left it undefined. */
  datatype Session = Live(table: seq<PlayerMatch>) | Undefined(badIndex: int)

  /** Role by index parity: even indices are Player1, odd ones Player2. */
  function ParityRole(index: int): PlayerId
  {
    if index % 2 == 0 then Player1 else Player2
  }

  /** The largest index below n whose entry is unmatched, or -1 when there is none. */
  function LastUnmatched(t: seq<PlayerMatch>, n: nat): (u: int)
    requires n <= |t|
    ensures -1 <= u < n
    ensures u >= 0 ==> t[u].matchPlayerIndex == Unmatched
    ensures forall j :: u < j < n ==> t[j].matchPlayerIndex != Unmatched
  {
    if n == 0 then -1
    else if t[n - 1].matchPlayerIndex == Unmatched then n - 1
    else LastUnmatched(t, n - 1)
  }

  /** An earlier entry as the scan leaves it: pointed at the newcomer if it was unmatched. */
  function LinkedTo(e: PlayerMatch, newcomer: int): PlayerMatch
  {
    if e.matchPlayerIndex == Unmatched then e.(matchPlayerIndex := newcomer) else e
  }

  /**
   * The newcomer's entry once the scan has passed the first n earlier entries: it was
   * last written by the last unmatched one among them (partner = that index, role = the
   * opposite of that entry's role), or it is still as appended.
   */
  function NewcomerAfter(t: seq<PlayerMatch>, n: nat, role: PlayerId): PlayerMatch
    requires n <= |t|
  {
    var u := LastUnmatched(t, n);
    if u == -1 then PlayerMatch(role, Unmatched) else PlayerMatch(Opposite(t[u].id), u)
  }

  /**
   * The table after admitting connection |t|: every earlier unmatched entry now points at
   * the newcomer; the newcomer points at the last of them, or, when there was none, at
   * itself with the role opposite to its parity role. A lone first connection is only
   * appended.
   */
  function Admitted(t: seq<PlayerMatch>): (r: seq<PlayerMatch>)
    ensures |r| == |t| + 1
  {
    var last := |t|;
    var role := ParityRole(last);
    if last == 0 then [PlayerMatch(role, Unmatched)]
    else
      var e := NewcomerAfter(t, last, role);
      seq(last, j requires 0 <= j < last => LinkedTo(t[j], last))
        + [if e.matchPlayerIndex == Unmatched then PlayerMatch(Opposite(role), last) else e]
  }

  /**
   * The admission block of the main loop, run after AcceptClients appended a connection:
   * `clientCount` is the new length of the connection list. Appends the newcomer's entry
   * with its parity role, runs the pairing scan (which has no break), and returns the Init
   * message sent to the newcomer, which carries the parity role even where the scan
   * changed the stored one.
   */
  method Admit(t: seq<PlayerMatch>, clientCount: int) returns (r: seq<PlayerMatch>, initMsg: InitMsg)
    requires clientCount == |t| + 1
    ensures r == Admitted(t)
    ensures initMsg == NewInitMsg(ParityRole(|t|))
  {
    var lastIndex := clientCount - 1;
    initMsg := NewInitMsg(if lastIndex % 2 == 0 then Player1 else Player2);
    r := t + [PlayerMatch(initMsg.pId, Unmatched)];
    var i := 0;
    while i < clientCount && clientCount > 1
      invariant 0 <= i <= clientCount
      invariant clientCount == 1 ==> i == 0
      invariant |r| == clientCount
      invariant forall j :: 0 <= j < i && j < lastIndex ==> r[j] == LinkedTo(t[j], lastIndex)
      invariant forall j :: i <= j < lastIndex ==> r[j] == t[j]
      invariant i <= lastIndex ==> r[lastIndex] == NewcomerAfter(t, i, initMsg.pId)
      invariant i == clientCount && clientCount > 1 ==> r == Admitted(t)
    {
      if r[i].matchPlayerIndex == Unmatched {
        r := r[i := r[i].(matchPlayerIndex := lastIndex)];
        r := r[lastIndex := r[lastIndex].(matchPlayerIndex := i)];
        r := r[lastIndex := r[lastIndex].(id := Opposite(r[i].id))];
      }
      i := i + 1;
    }
    if clientCount == 1 {
      assert r[0] == NewcomerAfter(t, 0, Player1);
    }
  }

  /**
   * Every partner link is mutual: an entry's partner index lies inside the table and the
   * partner's entry points back (a self-link points back at itself).
   */
  predicate Paired(t: seq<PlayerMatch>)
  {
    forall i :: 0 <= i < |t| && t[i].matchPlayerIndex != Unmatched ==>
      0 <= t[i].matchPlayerIndex < |t| && t[t[i].matchPlayerIndex].matchPlayerIndex == i
  }

  /** Two different entries linked to each other hold opposite roles. */
  predicate RolesOpposed(t: seq<PlayerMatch>)
  {
    forall i :: 0 <= i < |t| && 0 <= t[i].matchPlayerIndex < |t| && t[i].matchPlayerIndex != i ==>
      t[t[i].matchPlayerIndex].id != t[i].id
  }

  /** No two entries wait for a partner at the same time. */
  predicate AtMostOneUnmatched(t: seq<PlayerMatch>)
  {
    forall i, j :: 0 <= i < j < |t| && t[i].matchPlayerIndex == Unmatched ==> t[j].matchPlayerIndex != Unmatched
  }

  /**
   * The disconnect callback for index k: the partner's link (if any) is reset, then entry
   * k is erased. No stored index is renumbered: entries after k move down one place and
   * keep the partner indices they had. Reading entry k, or writing a partner index that
   * lies outside the table, is undefined.
   */
  function Unlink(t: seq<PlayerMatch>, k: int): (r: Session)
    ensures r.Undefined? <==> !(0 <= k < |t|) ||
                              (t[k].matchPlayerIndex != Unmatched && !(0 <= t[k].matchPlayerIndex < |t|))
    ensures Paired(t) && 0 <= k < |t| ==> r.Live?
    ensures r.Live? ==> |r.table| == |t| - 1
    ensures r.Live? ==> forall j :: 0 <= j < |r.table| ==>
              var o := if j < k then j else j + 1;
              r.table[j] == if o == t[k].matchPlayerIndex then t[o].(matchPlayerIndex := Unmatched) else t[o]
  {
    if !(0 <= k < |t|) then Undefined(k)
    else
      var m := t[k].matchPlayerIndex;
      if m == Unmatched then Live(t[..k] + t[k + 1..])
      else if 0 <= m < |t| then
        var t' := t[m := t[m].(matchPlayerIndex := Unmatched)];
        Live(t'[..k] + t'[k + 1..])
      else Undefined(m)
  }

  /** HandleClientDisconnectedCallback, on the table it captures. */
  function OnDisconnected(s: Session, index: int): Session
  {
    match s
    case Live(t) => Unlink(t, index)
    case Undefined(_) => s
  }

  /**
   * The data callback of PollClients: bytes from connection `index` are sent on to the
   * stored partner index, and dropped when the entry is unmatched.
   */
  function OnData(s: Session, index: int, data: seq<byte>, count: int): (reqs: seq<SendRequest>)
    ensures reqs != [] <==> s.Live? && 0 <= index < |s.table| && s.table[index].matchPlayerIndex != Unmatched
    ensures reqs != [] ==> reqs == [SendRequest(s.table[index].matchPlayerIndex, data)]
  {
    match s
    case Live(t) =>
      if 0 <= index < |t| && t[index].matchPlayerIndex != Unmatched
      then [SendRequest(t[index].matchPlayerIndex, data)]
      else []
    case Undefined(_) => []
  }

  /**
   * Admission keeps the pairing invariant (mutual links, opposite roles, at most one
   * entry waiting): the newcomer is linked both ways with the one waiting entry, taking the
   * opposite role, or, when nobody waits, linked to itself. From the second connection
   * on, nobody waits afterwards.
   */
  lemma {:induction false} AdmitKeepsPairing(t: seq<PlayerMatch>)
    requires Paired(t) && RolesOpposed(t) && AtMostOneUnmatched(t)
    ensures Paired(Admitted(t)) && RolesOpposed(Admitted(t)) && AtMostOneUnmatched(Admitted(t))
    ensures |t| > 0 ==> forall j :: 0 <= j < |t| + 1 ==> Admitted(t)[j].matchPlayerIndex != Unmatched
  {
    if |t| > 0 {
      AdmittedEntries(t);
      AdmitKeepsLinks(t);
      AdmitKeepsRoles(t);
    }
  }

  /** The entries of the admitted table, with u the one entry that was waiting, if any. */
  lemma AdmittedEntries(t: seq<PlayerMatch>)
    requires |t| > 0 && AtMostOneUnmatched(t)
    ensures forall j :: 0 <= j < |t| && j != LastUnmatched(t, |t|) ==> t[j].matchPlayerIndex != Unmatched
    ensures forall j :: 0 <= j < |t| ==> Admitted(t)[j] == LinkedTo(t[j], |t|)
    ensures Admitted(t)[|t|]
         == if LastUnmatched(t, |t|) == -1 then PlayerMatch(Opposite(ParityRole(|t|)), |t|)
            else PlayerMatch(Opposite(t[LastUnmatched(t, |t|)].id), LastUnmatched(t, |t|))
  {
    var u := LastUnmatched(t, |t|);
    forall j | 0 <= j < |t| && j != u
      ensures t[j].matchPlayerIndex != Unmatched
    {
      if j < u {
        assert t[u].matchPlayerIndex == Unmatched;
      }
    }
  }

  /** After admission every link is mutual. */
  lemma AdmitKeepsLinks(t: seq<PlayerMatch>)
    requires |t| > 0 && Paired(t) && AtMostOneUnmatched(t)
    requires forall j :: 0 <= j < |t| && j != LastUnmatched(t, |t|) ==> t[j].matchPlayerIndex != Unmatched
    requires forall j :: 0 <= j < |t| ==> Admitted(t)[j] == LinkedTo(t[j], |t|)
    requires Admitted(t)[|t|]
          == if LastUnmatched(t, |t|) == -1 then PlayerMatch(Opposite(ParityRole(|t|)), |t|)
             else PlayerMatch(Opposite(t[LastUnmatched(t, |t|)].id), LastUnmatched(t, |t|))
    ensures Paired(Admitted(t))
  {
    var r, u, last := Admitted(t), LastUnmatched(t, |t|), |t|;
    forall i | 0 <= i < |r| && r[i].matchPlayerIndex != Unmatched
      ensures 0 <= r[i].matchPlayerIndex < |r| && r[r[i].matchPlayerIndex].matchPlayerIndex == i
    {
      if i < last && i != u {
        var m := t[i].matchPlayerIndex;
        assert t[m].matchPlayerIndex == i;
      }
    }
  }

  /** After admission two different linked entries hold opposite roles. */
  lemma AdmitKeepsRoles(t: seq<PlayerMatch>)
    requires |t| > 0 && Paired(t) && RolesOpposed(t)
    requires forall j :: 0 <= j < |t| && j != LastUnmatched(t, |t|) ==> t[j].matchPlayerIndex != Unmatched
    requires forall j :: 0 <= j < |t| ==> Admitted(t)[j] == LinkedTo(t[j], |t|)
    requires Admitted(t)[|t|]
          == if LastUnmatched(t, |t|) == -1 then PlayerMatch(Opposite(ParityRole(|t|)), |t|)
             else PlayerMatch(Opposite(t[LastUnmatched(t, |t|)].id), LastUnmatched(t, |t|))
    ensures RolesOpposed(Admitted(t))
  {
    var r, u, last := Admitted(t), LastUnmatched(t, |t|), |t|;
    forall i | 0 <= i < |r| && 0 <= r[i].matchPlayerIndex < |r| && r[i].matchPlayerIndex != i
      ensures r[r[i].matchPlayerIndex].id != r[i].id
    {
      if i < last && i != u {
        var m := t[i].matchPlayerIndex;
        assert t[m].matchPlayerIndex == i;
      }
    }
  }

  /**
   * Once nobody waits, a newcomer is linked to itself, stored with the role opposite to
   * its parity role (the role its Init message carries), and no earlier entry changes.
   */
  lemma LaterNewcomerSelfLinks(t: seq<PlayerMatch>)
    requires |t| > 0
    requires forall j :: 0 <= j < |t| ==> t[j].matchPlayerIndex != Unmatched
    ensures Admitted(t)[..|t|] == t
    ensures Admitted(t)[|t|] == PlayerMatch(Opposite(ParityRole(|t|)), |t|)
    ensures Admitted(t)[|t|].id != NewInitMsg(ParityRole(|t|)).pId
  {
    assert LastUnmatched(t, |t|) == -1;
  }

  /**
   * Removing the most recent connection keeps every link mutual and every linked pair
   * of opposite roles: its partner, if any, is left waiting.
   */
  lemma UnlinkLastKeepsPairing(t: seq<PlayerMatch>)
    requires |t| > 0 && Paired(t) && RolesOpposed(t)
    ensures Unlink(t, |t| - 1).Live?
    ensures Paired(Unlink(t, |t| - 1).table) && RolesOpposed(Unlink(t, |t| - 1).table)
  {
    var k := |t| - 1;
    var r := Unlink(t, k).table;
    forall i | 0 <= i < |r| && r[i].matchPlayerIndex != Unmatched
      ensures 0 <= r[i].matchPlayerIndex < |r| && r[r[i].matchPlayerIndex].matchPlayerIndex == i
    {
      var m := t[i].matchPlayerIndex;
      assert t[m].matchPlayerIndex == i;
    }
  }

  /**
   * The stale index made reachable: connections 0 and 1 pair up and connection 2 links to
   * itself; after connection 0 leaves, the former connection 2 sits at index 1 but still
   * stores partner index 2, so its own disconnect writes outside the table.
   */
  lemma StaleIndexLeavesTable()
    ensures Admitted(Admitted(Admitted([])))
         == [PlayerMatch(Player1, 1), PlayerMatch(Player2, 0), PlayerMatch(Player2, 2)]
    ensures Unlink(Admitted(Admitted(Admitted([]))), 0)
         == Live([PlayerMatch(Player2, Unmatched), PlayerMatch(Player2, 2)])
    ensures Unlink([PlayerMatch(Player2, Unmatched), PlayerMatch(Player2, 2)], 1) == Undefined(2)
  {
    var t1 := Admitted([]);
    assert t1 == [PlayerMatch(Player1, Unmatched)];
    var t2 := Admitted(t1);
    assert LastUnmatched(t1, 1) == 0;
    assert t2 == [PlayerMatch(Player1, 1), PlayerMatch(Player2, 0)];
    var t3 := Admitted(t2);
    assert LastUnmatched(t2, 2) == -1;
    assert t3 == [PlayerMatch(Player1, 1), PlayerMatch(Player2, 0), PlayerMatch(Player2, 2)];
    var after := [PlayerMatch(Player2, Unmatched), PlayerMatch(Player2, 2)];
    assert Unlink(t3, 0).table == after;
  }

  /**
   * The stale index also misroutes: with four connections (0 and 1 paired, 2 and 3 linked
   * to themselves), after connection 0 leaves, data from the former connection 2 (now at
   * index 1) is forwarded to index 2, the former connection 3.
   */
  lemma StaleIndexMisroutes(data: seq<byte>)
    ensures var t := [PlayerMatch(Player1, 1), PlayerMatch(Player2, 0), PlayerMatch(Player2, 2), PlayerMatch(Player1, 3)];
            Admitted(Admitted(Admitted(Admitted([])))) == t &&
            Unlink(t, 0) == Live([PlayerMatch(Player2, Unmatched), PlayerMatch(Player2, 2), PlayerMatch(Player1, 3)]) &&
            OnData(Unlink(t, 0), 1, data, |data|) == [SendRequest(2, data)]
  {
    var t3 := [PlayerMatch(Player1, 1), PlayerMatch(Player2, 0), PlayerMatch(Player2, 2)];
    StaleIndexLeavesTable();
    var t4 := Admitted(t3);
    assert LastUnmatched(t3, 3) == -1;
    assert t4 == [PlayerMatch(Player1, 1), PlayerMatch(Player2, 0), PlayerMatch(Player2, 2), PlayerMatch(Player1, 3)];
    assert Unlink(t4, 0).table == [PlayerMatch(Player2, Unmatched), PlayerMatch(Player2, 2), PlayerMatch(Player1, 3)];
  }

  /**
   * The stale index also breaks the pairing invariant in a reachable state: from the
   * four-connection table, connection 0 leaves, then the entry now at index 1 (the former
   * connection 2, still pointing at 2) leaves and releases the former connection 3. Two
   * entries wait at once, and the next admission links entry 0 to the newcomer while the
   * newcomer links to entry 1.
   */
  lemma StaleIndexBreaksPairing()
    ensures Unlink([PlayerMatch(Player2, Unmatched), PlayerMatch(Player2, 2), PlayerMatch(Player1, 3)], 1)
         == Live([PlayerMatch(Player2, Unmatched), PlayerMatch(Player1, Unmatched)])
    ensures !AtMostOneUnmatched([PlayerMatch(Player2, Unmatched), PlayerMatch(Player1, Unmatched)])
    ensures Admitted([PlayerMatch(Player2, Unmatched), PlayerMatch(Player1, Unmatched)])
         == [PlayerMatch(Player2, 2), PlayerMatch(Player1, 2), PlayerMatch(Player2, 1)]
    ensures !Paired(Admitted([PlayerMatch(Player2, Unmatched), PlayerMatch(Player1, Unmatched)]))
  {
    var t := [PlayerMatch(Player2, Unmatched), PlayerMatch(Player1, Unmatched)];
    assert LastUnmatched(t, 2) == 1;
    var r := Admitted(t);
    assert r == [PlayerMatch(Player2, 2), PlayerMatch(Player1, 2), PlayerMatch(Player2, 1)];
    assert r[r[0].matchPlayerIndex].matchPlayerIndex != 0;
  }

  /**
   * Within a poll pass that starts with the table as long as the connection list, each
   * erase of a connection is followed by the erase of its entry, so the two stay equally
   * long (the table is one longer only between the two erases) unless an access left the
   * table undefined.
   */
  lemma {:induction false} PollKeepsTableParallel(cs: seq<SocketId>, i: nat, outbox: seq<Write>, s: Session,
                                                  examined: seq<SocketId>, probe: SocketId -> ReadOutcome)
    requires i <= |cs|
    requires s.Live? ==> |s.table| == |cs|
    decreases |cs| - i
    ensures var r := PollFrom(cs, i, outbox, s, examined, probe, OnData, OnDisconnected);
            r.state.Live? ==> |r.state.table| == |r.clients|
  {
    if i < |cs| {
      var seen := examined + [cs[i]];
      match probe(cs[i])
      case NoInput =>
        PollKeepsTableParallel(cs, i + 1, outbox, s, seen, probe);
      case Read(count, bytes) =>
        if count <= 0 {
          PollKeepsTableParallel(cs[..i] + cs[i + 1..], i, outbox, OnDisconnected(s, i), seen, probe);
        } else {
          var out' := outbox + SendAll(cs, OnData(s, i, bytes, count));
          PollKeepsTableParallel(cs, i + 1, out', s, seen, probe);
        }
    }
  }

  /**
   * What forwarding puts on the wire: one write of the received bytes to the connection at
   * the stored partner index, and nothing when the sender is unmatched or that index is no
   * longer inside the connection list.
   */
  lemma ForwardReachesStoredPartner(t: seq<PlayerMatch>, cs: seq<SocketId>, index: int, data: seq<byte>, count: int)
    requires 0 <= index < |t|
    ensures SendAll(cs, OnData(Live(t), index, data, count))
         == if t[index].matchPlayerIndex != Unmatched && 0 <= t[index].matchPlayerIndex < |cs|
            then [Write(cs[t[index].matchPlayerIndex], data)] else []
  {
    var reqs := OnData(Live(t), index, data, count);
    if reqs != [] {
      assert reqs[1..] == [];
    }
  }

  /**
   * One iteration of the server's main loop: admit at most one connection (pairing it and
   * sending it its Init message, encoded by `encodeInit`), then poll every connection,
   * forwarding data to partners and unlinking disconnected entries. `accepted`/`socket` are
   * the accept outcome, `initWritten` the write result of the Init message and `probe` the
   * wait/read outcome of each connection. The table is as long as the connection list
   * before and after the step, unless an access left it undefined.
   */
  method ServerStep(nm: NetworkManager, session: Session, accepted: bool, socket: Option<SocketId>,
                    encodeInit: InitMsg -> seq<byte>, initWritten: int,
                    probe: SocketId -> ReadOutcome)
    returns (next: Session)
    requires session.Live? && |session.table| == |nm.clients|
    modifies nm
    ensures var isNew := accepted && socket.Some?;
            var admittedClients := if isNew then old(nm.clients) + [socket.value] else old(nm.clients);
            var admittedTable := if isNew then Admitted(session.table) else session.table;
            var sent := if isNew then [Write(socket.value, encodeInit(NewInitMsg(ParityRole(|old(nm.clients)|))))] else [];
            var r := PollFrom(admittedClients, 0, old(nm.outbox) + sent, Live(admittedTable), [], probe, OnData, OnDisconnected);
            nm.clients == r.clients && nm.outbox == r.outbox && next == r.state &&
            nm.clients == Survivors(admittedClients, probe)
    ensures next.Live? ==> |next.table| == |nm.clients|
    ensures nm.clientSocket == old(nm.clientSocket)
  {
    var isNewConnection := nm.AcceptClients(accepted, socket);
    var lastIndex := |nm.clients| - 1;
    var table := session.table;
    if isNewConnection {
      var initMsg;
      table, initMsg := Admit(table, |nm.clients|);
      var _ := nm.SendToClient(lastIndex, encodeInit(initMsg), initWritten);
    }
    ghost var cs0, out0 := nm.clients, nm.outbox;
    assert cs0 == if isNewConnection then old(nm.clients) + [socket.value] else old(nm.clients);
    assert table == if isNewConnection then Admitted(session.table) else session.table;
    assert out0 == old(nm.outbox) + if isNewConnection
      then [Write(socket.value, encodeInit(NewInitMsg(ParityRole(|old(nm.clients)|))))] else [];
    ghost var examined;
    next, examined := nm.PollClients(Live(table), probe, OnData, OnDisconnected);
    PollKeepsTableParallel(cs0, 0, out0, Live(table), [], probe);
  }
}
