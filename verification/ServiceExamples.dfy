/** Two runs of three nodes with their client services: a request served, so that the results on runs are about
    something; and what a request costs whose identity another client has borrowed. */
module ServiceExamples {
  import opened Common
  import opened Wire
  import opened KvOps
  import opened Sessions
  import opened RaftTypes
  import opened RaftStep
  import opened RaftInvariant
  import opened RaftScripts
  import opened EndToEnd
  import opened ServiceRuns
  import C = RaftCluster
  import L = Linearizability
  import S = ClientService
  import H = ServiceHistory
  import KvStore

  // ---- playing with desks ------------------------------------------------------------------------------------------

  /** Three nodes without batching; any pending table. */
  ghost predicate Plain(u: Setup) { u.cl == Trio() && u.capacity > 0 && u.maxBatch <= 1 }

  type Desks = map<NodeId, S.Desk>

  /** The service of the acting node can do its part. */
  ghost predicate DeskReady(u: Setup, st: Snapshot, desks: Desks, a: C.Action, deed: Deed) {
    && a.i in st.nodes && a.i in desks && desks[a.i].slots != []
    && (deed.Applied? ==> deed.x < |st.nodes[a.i].handed|)
    && if deed.Quiet? then !a.e.ClientProposes?
       else a.e == ClientProposes(TurnOf(u, st.nodes[a.i], desks[a.i], deed).batch)
  }

  ghost function DesksAfter(u: Setup, st: Snapshot, desks: Desks, a: C.Action, deed: Deed): Desks
    requires DeskReady(u, st, desks, a, deed)
  {
    desks[a.i := if a.Run? then TurnOf(u, st.nodes[a.i], desks[a.i], deed).desk else NewDesk(u.capacity)]
  }

  ghost predicate Goes(s: System, a: C.Action, deed: Deed, st: Snapshot, desks: Desks, s': System) {
    && s'.run == s.run + [st] && s'.acts == s.acts + [a]
    && s'.deeds == s.deeds + [deed] && s'.desks == s.desks + [desks]
  }

  lemma Act(u: Setup, s: System, a: C.Action, deed: Deed, st: Snapshot) returns (s': System)
    requires IsSystem(u, s) && u.cl == Trio() && Link(Last(s.run), a, st)
    requires DeskReady(u, Last(s.run), Last(s.desks), a, deed)
    ensures IsSystem(u, s')
    ensures Goes(s, a, deed, st, DesksAfter(u, Last(s.run), Last(s.desks), a, deed), s')
  {
    var desks := DesksAfter(u, Last(s.run), Last(s.desks), a, deed);
    s' := System(s.run + [st], s.acts + [a], s.deeds + [deed], s.desks + [desks]);
    Extend(s.run, s.acts, a, st);
    forall k | 0 <= k < |s'.acts| ensures DeskStep(u, s', k) {
      if k < |s.acts| { assert DeskStep(u, s, k); }
    }
  }

  /** An action the service has no part in. */
  lemma ActQuietly(u: Setup, s: System, i: NodeId, e: Event, room: nat, st: Snapshot) returns (s': System)
    requires IsSystem(u, s) && u.cl == Trio() && Link(Last(s.run), C.Run(i, e, room), st) && !e.ClientProposes?
    requires i in Last(s.run).nodes && i in Last(s.desks) && Last(s.desks)[i].slots != []
    ensures IsSystem(u, s') && Goes(s, C.Run(i, e, room), Quiet, st, Last(s.desks), s')
  {
    s' := Act(u, s, C.Run(i, e, room), Quiet, st);
    assert Last(s.desks)[i := Last(s.desks)[i]] == Last(s.desks);
  }

  // ---- the opening: an election, and client 7 sends a command -----------------------------------------------------

  ghost predicate Lawful(u: Setup) {
    Plain(u) && KvService(u.sv) && forall c {:trigger u.sv.prefix(c)} :: u.sv.prefix(c) == S.Prefix(c)
  }

  function AtDesks(a: S.Desk, b: S.Desk, c: S.Desk): Desks { map[1 := a, 2 := b, 3 := c] }

  /** The desk of leader i, at which `from` waits for index 1. */
  ghost function Waits(u: Setup, i: NodeId, from: NodeId, id: Ident): S.Desk
    requires u.capacity > 0
  {
    S.Desk(S.PutIn(NewDesk(u.capacity).slots, 1, S.Pending(from, id)), [], i)
  }

  lemma Begin(u: Setup) returns (s: System)
    requires Lawful(u)
    ensures IsSystem(u, s) && s.run == [Start()] && s.acts == [] && s.deeds == []
    ensures s.desks == [AtDesks(NewDesk(u.capacity), NewDesk(u.capacity), NewDesk(u.capacity))]
  {
    var d := NewDesk(u.capacity);
    s := System([Start()], [], [], [AtDesks(d, d, d)]);
    StartIsRun();
  }

  lemma ElectedSystem(u: Setup) returns (s: System)
    requires Lawful(u)
    ensures IsSystem(u, s) && s.deeds == [Quiet, Quiet, Quiet]
    ensures Last(s.run).nodes == Three(Opened(), Boot(1, Some(1), []), Blank())
    ensures Last(s.desks) == AtDesks(NewDesk(u.capacity), NewDesk(u.capacity), NewDesk(u.capacity))
  {
    s := Begin(u);
    var s1, s2, s3 := Election();
    s := ActQuietly(u, s, 1, TimerFires, 0, s1);
    s := ActQuietly(u, s, 2, Receive(1, RequestVote(1, 1, 0, 0)), 0, s2);
    s := ActQuietly(u, s, 1, Receive(2, RequestVoteReply(1, true)), 0, s3);
  }

  /** A command arrives at a leader with an empty log: it is proposed, and its sender waits for index 1. */
  lemma Arriving(u: Setup, s: System, i: NodeId, n: Node, from: NodeId, id: Ident, cmd: Bytes, st: Snapshot)
    returns (s': System)
    requires Lawful(u) && IsSystem(u, s) && S.Prefix(cmd) == Some(id)
    requires i in Last(s.run).nodes && Last(s.run).nodes[i] == n && n.role.Leader? && n.log == []
        && n.leaderId == Some(i)
    requires i in Last(s.desks) && Last(s.desks)[i] == NewDesk(u.capacity)
    requires Link(Last(s.run), C.Run(i, ClientProposes([cmd]), 0), st)
    ensures IsSystem(u, s')
    ensures Goes(s, C.Run(i, ClientProposes([cmd]), 0), Arrival(from, S.Request(id, cmd)), st,
                 Last(s.desks)[i := Waits(u, i, from, id)], s')
  {
    var t := S.Arrive(NewDesk(u.capacity), u.maxBatch, from, S.Request(id, cmd), CoreOf(n));
    assert t == S.Turn(Waits(u, i, from, id), [cmd], []);
    s' := Act(u, s, C.Run(i, ClientProposes([cmd]), 0), Arrival(from, S.Request(id, cmd)), st);
  }

  lemma AskedSystem(u: Setup, op: Bytes, id: Ident) returns (s: System)
    requires Lawful(u) && S.Prefix(op) == Some(id)
    ensures IsSystem(u, s) && s.deeds == [Quiet, Quiet, Quiet, Arrival(7, S.Request(id, op))] && s.acts[3].i == 1
    ensures Last(s.run).nodes == Three(Opener(op), Boot(1, Some(1), []), Blank())
    ensures Packet(1, 2, AppendEntries(1, 1, 0, 0, 0, [Entry(1, op)])) in Last(s.run).msgs
    ensures Last(s.desks) == AtDesks(Waits(u, 1, 7, id), NewDesk(u.capacity), NewDesk(u.capacity))
  {
    s := ElectedSystem(u);
    var st := Proposing(Last(s.run), 1, 2, 1, 2, 3, op, 0);
    s := Arriving(u, s, 1, Opened(), 7, id, op, st);
    assert st.nodes == Three(Opener(op), Boot(1, Some(1), []), Blank());
  }

  // ---- the close: node 1 has applied an entry, and client 7 is answered ---------------------------------------------

  /** Operation op, issued when it was sent and answered by the last of n actions. */
  ghost function Client(op: Bytes, n: nat): Clients { Clients([op], [3], map[0 := Ack(n, 1, 0)]) }

  lemma Settles(u: Setup, i: NodeId, from: NodeId, id: Ident, cmd: Bytes, r: Bytes)
    requires u.capacity > 0 && S.Prefix(cmd) == Some(id)
    ensures S.Lookup(Waits(u, i, from, id).slots, 1) == Some(S.Pending(from, id))
    ensures var t := S.Settle(Waits(u, i, from, id), 1, cmd, r); t.batch == [] && t.replies == [(from, S.Answer(r))]
  {}

  lemma Answering(u: Setup, s: System, t: Term, cmd: Bytes, op: Bytes, id: Ident) returns (s': System)
    requires Lawful(u) && IsSystem(u, s) && S.Prefix(cmd) == S.Prefix(op) == Some(id)
    requires 1 in Last(s.run).nodes && Last(s.run).nodes[1].handed == [Entry(t, cmd)]
    requires 1 in Last(s.desks) && Last(s.desks)[1] == Waits(u, 1, 7, id)
    ensures IsSystem(u, s') && s'.deeds == s.deeds + [Applied(0)] && s.acts <= s'.acts && |s'.acts| == |s.acts| + 1
    ensures Attends(s', |s.acts|) && TurnAt(u, s', |s.acts|).replies == [(7, S.Answer(ReplyAt(u.sv.m, [cmd], 0)))]
    ensures Answered(u, s', Client(op, |s'.acts|), 0)
    ensures Taken(u, s', Client(op, |s'.acts|), 0) == ReplyAt(u.sv.m, [cmd], 0)
  {
    var st := Idling(Last(s.run), 1);
    assert CommandsIn([Entry(t, cmd)]) == [cmd];
    Settles(u, 1, 7, id, cmd, ReplyAt(u.sv.m, [cmd], 0));
    s' := Act(u, s, C.Run(1, ClientProposes([]), 0), Applied(0), st);
    assert DeskStep(u, s', |s.acts|);
  }

  // ---- a request served -------------------------------------------------------------------------------------------

  lemma ReplicatedSystem(u: Setup, cmd: Bytes, id: Ident) returns (s: System)
    requires Lawful(u) && S.Prefix(cmd) == Some(id)
    ensures IsSystem(u, s) && s.deeds == [Quiet, Quiet, Quiet, Arrival(7, S.Request(id, cmd)), Quiet, Quiet]
    ensures 1 in Last(s.run).nodes && Last(s.run).nodes[1].handed == [Entry(1, cmd)]
    ensures 1 in Last(s.desks) && Last(s.desks)[1] == Waits(u, 1, 7, id)
  {
    var e := Entry(1, cmd);
    s := AskedSystem(u, cmd, id);
    var st := Accepting(Last(s.run), 2, Boot(1, Some(1), []), 1, e);
    s := ActQuietly(u, s, 2, Receive(1, AppendEntries(1, 1, 0, 0, 0, [e])), 0, st);
    st := Committing(st, 1, 2, 1, 2, 3, 2, cmd, 1);
    s := ActQuietly(u, s, 1, Receive(2, AppendEntriesReply(1, true, 1, 0)), 1, st);
    assert [e][0..1] == [e];
  }

  lemma ServedSystem(u: Setup, cmd: Bytes, id: Ident) returns (s: System)
    requires Lawful(u) && S.Prefix(cmd) == Some(id)
    ensures IsSystem(u, s) && Answered(u, s, Client(cmd, |s.acts|), 0)
    ensures s.deeds == [Quiet, Quiet, Quiet, Arrival(7, S.Request(id, cmd)), Quiet, Quiet, Applied(0)]
  {
    s := ReplicatedSystem(u, cmd, id);
    s := Answering(u, s, 1, cmd, cmd, id);
  }

  /** For every command of a client with a session there is a run of three nodes in which the service of its
      leader answers it, and the clients are disciplined. */
  lemma SomeRunAnswers(u: Setup, cmd: Bytes) returns (s: System)
    requires Lawful(u) && u.sv.m.ident(cmd).Some? && u.sv.m.ident(cmd).value.client != 0
    ensures IsSystem(u, s) && Disciplined(u, s, Client(cmd, |s.acts|)) && 0 in Client(cmd, |s.acts|).acks
  {
    var id := u.sv.m.ident(cmd).value;
    assert RunsCall(u.sv, map[], cmd);
    assert u.sv.prefix(cmd) == Some(id);
    s := ServedSystem(u, cmd, id);
    var w := Client(cmd, |s.acts|);
    assert w.ops[0] == cmd && w.invoke[0] <= 3;
  }

  // ---- what no order explains --------------------------------------------------------------------------------------

  lemma {:induction false} NeverMalformed(h: L.History, kv: Store, s: seq<nat>, i: nat)
    requires L.In(h, s) && i in s && L.Complete(h[i]) && h[i].result == Malformed
    ensures !L.StoreReplays(h, kv, s)
    decreases s
  {
    var (kv', out) := ApplyOp(kv, h[s[0]].call);
    assert out != Malformed by { assert |out| > 0 ==> out[0] != Malformed[0]; }
    if s[0] != i {
      assert i in s[1..];
      NeverMalformed(h, kv', s[1..], i);
    }
  }

  /** No order explains an operation that was told it is malformed. */
  lemma MalformedNotLinearizable(h: L.History, i: nat)
    requires i < |h| && L.Complete(h[i]) && h[i].result == Malformed
    ensures !L.Linearizable(h)
  {
    forall s | L.In(h, s) && L.Covers(h, L.Below(|h|), s) && L.RealTime(h, s) ensures !L.StoreReplays(h, map[], s) {
      assert i in L.Below(|h|);
      NeverMalformed(h, map[], s, i);
    }
  }

  // ---- a borrowed identity ----------------------------------------------------------------------------------------

  /** Node 2 with an unreadable command in its log, leader of term 2. */
  function Usurper(bad: Bytes): Node {
    LeaderOf(2, 3, 2, [Entry(2, bad)], map[1 := 1, 3 := 1], map[1 := 0, 3 := 0])
  }

  /** Client 7 sends nothing else. */
  ghost predicate OnceFrom7(s: System) {
    forall k :: 0 <= k < |s.deeds| && s.deeds[k].Arrival? && s.deeds[k].from == 7 ==> k == 3
  }

  /** What the runs below have in common: client 7 has sent op to node 1 and waits there for index 1. */
  ghost predicate Waiting(u: Setup, s: System, op: Bytes, id: Ident) {
    && Lawful(u) && IsSystem(u, s) && |s.acts| > 3
    && s.acts[3].i == 1 && s.deeds[3] == Arrival(7, S.Request(id, op)) && OnceFrom7(s)
    && Last(s.desks).Keys == {1, 2, 3} && Last(s.desks)[1] == Waits(u, 1, 7, id)
    && Last(s.desks)[2].slots != [] && Last(s.desks)[3].slots != []
  }

  lemma WaitOn(u: Setup, s: System, op: Bytes, id: Ident, i: NodeId, e: Event, room: nat, st: Snapshot)
    returns (s': System)
    requires Waiting(u, s, op, id) && Link(Last(s.run), C.Run(i, e, room), st) && !e.ClientProposes?
    requires i in {1, 2, 3} && i in Last(s.run).nodes
    ensures Waiting(u, s', op, id) && |s'.acts| == |s.acts| + 1 && Last(s'.run) == st && Last(s'.desks) == Last(s.desks)
  {
    s' := ActQuietly(u, s, i, e, room, st);
  }

  /** While client 7 waits, node 2 takes over. */
  lemma DeposedSystem(u: Setup, op: Bytes, id: Ident) returns (s: System)
    requires Lawful(u) && S.Prefix(op) == Some(id)
    ensures Waiting(u, s, op, id) && |s.acts| == 7 && Last(s.desks)[2] == NewDesk(u.capacity)
    ensures Last(s.run).nodes == Three(Opener(op), Successor(), Boot(2, Some(2), []))
  {
    s := AskedSystem(u, op, id);
    var s1, s2, s3 := Takeover(Last(s.run), Opener(op));
    s := WaitOn(u, s, op, id, 2, TimerFires, 0, s1);
    s := WaitOn(u, s, op, id, 3, Receive(2, RequestVote(2, 2, 0, 0)), 0, s2);
    s := WaitOn(u, s, op, id, 2, Receive(3, RequestVoteReply(2, true)), 0, s3);
  }

  /** Client 8 sends node 2 a command with client 7's identity. */
  lemma UsurpedSystem(u: Setup, op: Bytes, bad: Bytes, id: Ident) returns (s: System)
    requires Lawful(u) && S.Prefix(bad) == S.Prefix(op) == Some(id)
    ensures Waiting(u, s, op, id) && |s.acts| == 8
    ensures Last(s.run).nodes == Three(Opener(op), Usurper(bad), Boot(2, Some(2), []))
    ensures Packet(2, 3, AppendEntries(2, 2, 0, 0, 0, [Entry(2, bad)])) in Last(s.run).msgs
  {
    s := DeposedSystem(u, op, id);
    var st := Proposing(Last(s.run), 2, 3, 2, 1, 3, bad, 1);
    s := Arriving(u, s, 2, Successor(), 8, id, bad, st);
  }

  /** Nodes 2 and 3 commit it. */
  lemma CommittedSystem(u: Setup, op: Bytes, bad: Bytes, id: Ident) returns (s: System)
    requires Lawful(u) && S.Prefix(bad) == S.Prefix(op) == Some(id)
    ensures Waiting(u, s, op, id) && |s.acts| == 10 && Last(s.run).nodes.Keys == {1, 2, 3}
    ensures Last(s.run).nodes[1] == Opener(op) && Last(s.run).nodes[2] == Committed(Usurper(bad), 3, 0)
  {
    var e := Entry(2, bad);
    s := UsurpedSystem(u, op, bad, id);
    var st := Accepting(Last(s.run), 3, Boot(2, Some(2), []), 2, e);
    s := WaitOn(u, s, op, id, 3, Receive(2, AppendEntries(2, 2, 0, 0, 0, [e])), 0, st);
    st := Committing(st, 2, 3, 2, 1, 3, 3, bad, 0);
    s := WaitOn(u, s, op, id, 2, Receive(3, AppendEntriesReply(2, true, 1, 0)), 0, st);
  }

  /** At node 1 it takes the index client 7 waits for. */
  lemma ReplacedSystem(u: Setup, op: Bytes, bad: Bytes, id: Ident) returns (s: System)
    requires Lawful(u) && S.Prefix(bad) == S.Prefix(op) == Some(id)
    ensures Waiting(u, s, op, id) && |s.acts| == 12
    ensures 1 in Last(s.run).nodes && Last(s.run).nodes[1].handed == [Entry(2, bad)]
  {
    var e := Entry(2, bad);
    s := CommittedSystem(u, op, bad, id);
    var st := Beating(Last(s.run), 2, Committed(Usurper(bad), 3, 0), 1, 3, e);
    s := WaitOn(u, s, op, id, 2, TimerFires, 0, st);
    st := Overwriting(st, 1, Opener(op), 2, 2, e);
    s := WaitOn(u, s, op, id, 1, Receive(2, AppendEntries(2, 2, 0, 0, 1, [e])), 1, st);
  }

  /** And client 7 is answered with what became of it. */
  lemma MisledSystem(u: Setup, op: Bytes, bad: Bytes, id: Ident) returns (s: System)
    requires Lawful(u) && S.Prefix(bad) == S.Prefix(op) == Some(id)
    ensures IsSystem(u, s) && |s.acts| == 13
    ensures s.acts[3].i == 1 && s.deeds[3] == Arrival(7, S.Request(id, op)) && OnceFrom7(s)
    ensures Attends(s, 12) && TurnAt(u, s, 12).replies == [(7, S.Answer(ReplyAt(u.sv.m, [bad], 0)))]
    ensures Answered(u, s, Client(op, 13), 0) && Taken(u, s, Client(op, 13), 0) == ReplyAt(u.sv.m, [bad], 0)
  {
    s := ReplacedSystem(u, op, bad, id);
    s := Answering(u, s, 2, bad, op, id);
  }

  lemma KeyValueLawful(u: Setup)
    requires Plain(u) && u.sv == H.KeyValue()
    ensures Lawful(u)
  {
    H.KvStoreServes();
  }

  lemma UnreadableReply(bad: Bytes)
    requires KvStore.IdentOf(bad).None?
    ensures ReplyAt(H.KeyValue().m, [bad], 0) == Malformed
  {}

  /** Why clients must own their identities. Client 7 sends a readable operation to node 1, whose leadership ends
      before anyone else has it. Client 8 sends node 2 a command that cannot be read but begins like client 7's.
      It is committed at the very index client 7 waits for, and since the leading bytes match, client 7 is told
      that its operation is malformed: an answer that no order explains. */
  lemma BorrowedIdentityBreaks(u: Setup, op: Bytes, bad: Bytes) returns (s: System)
    requires Plain(u) && u.sv == H.KeyValue()
    requires KvStore.IdentOf(op).Some? && KvStore.IdentOf(bad).None? && S.Prefix(bad) == S.Prefix(op)
    ensures IsSystem(u, s) && |s.acts| == 13 && S.Prefix(op).Some?
    ensures s.acts[3].i == 1 && s.deeds[3] == Arrival(7, S.Request(S.Prefix(op).value, op)) && OnceFrom7(s)
    ensures Attends(s, 12) && TurnAt(u, s, 12).replies == [(7, S.Answer(Malformed))]
    ensures Answered(u, s, Client(op, 13), 0) && Taken(u, s, Client(op, 13), 0) == Malformed
    ensures !L.Linearizable([L.ClientOp(H.CallOf(op), 4, 13, Malformed)])
  {
    KeyValueLawful(u);
    UnreadableReply(bad);
    s := MisledSystem(u, op, bad, S.Prefix(op).value);
    MalformedNotLinearizable([L.ClientOp(H.CallOf(op), 4, 13, Malformed)], 0);
  }
}
