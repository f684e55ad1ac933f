/** Concrete runs of a cluster of three, step by step: an election with one proposal to open with, and what may
    follow. */
module RaftScripts {
  import opened Common
  import opened RaftTypes
  import opened RaftStep
  import opened RaftInvariant
  import opened RaftCrash
  import opened RaftCluster

  function Trio(): Cluster { map[1 := [2, 3], 2 := [1, 3], 3 := [1, 2]] }

  lemma TrioValid()
    ensures ValidCluster(Trio())
  {
    var cl := Trio();
    assert cl.Keys == {1, 2, 3};
  }

  function Three(a: Node, b: Node, c: Node): map<NodeId, Node> { map[1 := a, 2 := b, 3 := c] }

  // ---- playing ---------------------------------------------------------------------------------------------

  ghost function Last<T>(s: seq<T>): T
    requires s != []
  {
    s[|s| - 1]
  }

  /** Action a leads from s to s'. */
  ghost predicate Link(s: State, a: Action, s': State) {
    forall k {:trigger StepAt(Trio(), [s, s'], [a], k)} :: k == 0 ==> StepAt(Trio(), [s, s'], [a], k)
  }

  lemma Extend(run: seq<State>, acts: seq<Action>, a: Action, s: State)
    requires IsRun(Trio(), run, acts) && Link(Last(run), a, s)
    ensures IsRun(Trio(), run + [s], acts + [a])
  {
    var run', acts' := run + [s], acts + [a];
    assert StepAt(Trio(), [Last(run), s], [a], 0);
    forall k | 0 <= k < |acts'| ensures StepAt(Trio(), run', acts', k) {
      if k < |acts| { assert StepAt(Trio(), run, acts, k); }
    }
  }

  function ConfigOf(i: NodeId): Config
    requires i in Trio()
  {
    Config(i, Trio()[i])
  }

  ghost predicate Becomes(i: NodeId, before: Node, e: Event, room: nat, n: Node) {
    i in Trio() && Step(ConfigOf(i), before, e, room).node == n
  }

  /** Node i handles e, becomes n and sends, among others, what is at position j of its effects. */
  ghost predicate Does(i: NodeId, before: Node, e: Event, room: nat, n: Node, j: nat, to: NodeId, m: Msg) {
    && Becomes(i, before, e, room, n)
    && var es := Step(ConfigOf(i), before, e, room).effects;
    j < |es| && es[j] == Send(to, m)
  }

  ghost predicate Deliverable(s: State, i: NodeId, e: Event) {
    i in s.nodes && (e.Receive? ==> Packet(e.from, i, e.msg) in s.msgs)
  }

  lemma Move(s: State, i: NodeId, e: Event, room: nat, n: Node) returns (s': State)
    requires Deliverable(s, i, e) && Becomes(i, s.nodes[i], e, room, n)
    ensures Link(s, Run(i, e, room), s') && s'.nodes == s.nodes[i := n] && s.msgs <= s'.msgs
    ensures s'.msgs == s.msgs + Sent(i, Step(ConfigOf(i), s.nodes[i], e, room).effects)
  {
    s' := State(s.nodes[i := n], s.msgs + Sent(i, Step(ConfigOf(i), s.nodes[i], e, room).effects));
    assert StepAt(Trio(), [s, s'], [Run(i, e, room)], 0);
  }

  lemma MoveSends(s: State, i: NodeId, e: Event, room: nat, n: Node, j: nat, to: NodeId, m: Msg) returns (s': State)
    requires Deliverable(s, i, e) && Does(i, s.nodes[i], e, room, n, j, to, m)
    ensures Link(s, Run(i, e, room), s') && s'.nodes == s.nodes[i := n] && s.msgs + {Packet(i, to, m)} <= s'.msgs
  {
    s' := Move(s, i, e, room, n);
    var es := Step(ConfigOf(i), s.nodes[i], e, room).effects;
    assert Packet(i, to, m) == Packet(i, es[j].to, es[j].msg);
  }

  // ---- what the nodes do ---------------------------------------------------------------------------------------

  function Blank(): Node { Boot(0, None, []) }

  function Candidate(i: NodeId, t: Term, log: Log): Node {
    Boot(t, Some(i), log).(role := Role.Candidate, votes := {i})
  }

  function LeaderOf(i: NodeId, v: NodeId, t: Term, log: Log, next: map<NodeId, nat>, match': map<NodeId, nat>): Node {
    Boot(t, Some(i), log).(role := Leader, leaderId := Some(i), votes := {i, v}, nextIndex := next,
        matchIndex := match')
  }

  lemma Filled(p: NodeId, q: NodeId, v: nat)
    ensures FilledWith([p, q], v) == map[p := v, q := v]
  {
    assert [p, q][1..] == [q] && [q][1..] == [];
  }

  lemma Asks(i: NodeId, t: Term, vote: Option<NodeId>, log: Log, j: nat)
    requires i in Trio() && j < 2
    ensures Does(i, Boot(t, vote, log), TimerFires, 0, Candidate(i, t + 1, log), j + 1, Trio()[i][j],
                 RequestVote(t + 1, i, |log|, LastTerm(log)))
  {
    assert |{i}| == 1;
  }

  lemma Votes(i: NodeId, f: Node, from: NodeId, t: Term, n: nat, lt: Term)
    requires i in Trio() && f == Boot(f.term, f.vote, []) && f.term < t
    ensures Does(i, f, Receive(from, RequestVote(t, from, n, lt)), 0, Boot(t, Some(from), []), 2, from,
        RequestVoteReply(t, true))
  {}

  lemma Wins(i: NodeId, from: NodeId, t: Term, log: Log, p: NodeId, q: NodeId, j: nat)
    requires i in Trio() && Trio()[i] == [p, q] && from in [p, q] && j < 2
    ensures var n := |log| + 1;
            var next := map[p := n, q := n];
            Does(i, Candidate(i, t, log), Receive(from, RequestVoteReply(t, true)), 0,
                 LeaderOf(i, from, t, log, next, map[p := 0, q := 0]), j, [p, q][j],
                 AppendEntries(t, i, |log|, LastTerm(log), 0, []))
  {
    var n := |log| + 1;
    var l := LeaderOf(i, from, t, log, map[p := n, q := n], map[p := 0, q := 0]);
    TakesOffice(i, from, t, log, p, q, l);
    OfferedTo(i, Candidate(i, t, log), Receive(from, RequestVoteReply(t, true)), l, [p, q], j, n);
  }

  lemma OfferedTo(i: NodeId, before: Node, e: Event, l: Node, peers: seq<NodeId>, j: nat, next: nat)
    requires i in Trio() && j < |peers| && Get(l.nextIndex, peers[j]) == next > |l.log|
    requires Step(ConfigOf(i), before, e, 0) == Outcome(l, AppendToAll(ConfigOf(i), l, peers))
    ensures Does(i, before, e, 0, l, j, peers[j],
                 AppendEntries(l.term, i, next - 1, TermAt(l.log, next - 1), l.commitIndex, []))
  {
    Offers(ConfigOf(i), l, peers[j], next);
  }

  lemma TakesOffice(i: NodeId, from: NodeId, t: Term, log: Log, p: NodeId, q: NodeId, l: Node)
    requires i in Trio() && Trio()[i] == [p, q] && from in [p, q]
    requires var n := |log| + 1; l == LeaderOf(i, from, t, log, map[p := n, q := n], map[p := 0, q := 0])
    ensures Step(ConfigOf(i), Candidate(i, t, log), Receive(from, RequestVoteReply(t, true)), 0)
            == Outcome(l, AppendToAll(ConfigOf(i), l, [p, q]))
  {
    Counted(i, from, t, log);
    InOffice(i, from, t, log, p, q);
  }

  lemma Counted(i: NodeId, from: NodeId, t: Term, log: Log)
    requires i in Trio() && from in Trio()[i]
    ensures Handle(ConfigOf(i), Candidate(i, t, log), from, RequestVoteReply(t, true), 0)
            == BecomeLeader(ConfigOf(i), Candidate(i, t, log).(votes := {i, from}))
  {
    SecondVote(ConfigOf(i), Candidate(i, t, log), from);
    NothingBefore(BecomeLeader(ConfigOf(i), Candidate(i, t, log).(votes := {i, from})));
  }

  lemma NothingBefore(o: Outcome)
    ensures Outcome(o.node, [] + o.effects) == o
  {
    assert [] + o.effects == o.effects;
  }

  lemma SecondVote(c: Config, k: Node, from: NodeId)
    requires |c.peers| == 2 && k.role.Candidate? && k.votes == {c.self} && from != c.self
    ensures OnRequestVoteReply(c, k, from, RequestVoteReply(k.term, true))
        == BecomeLeader(c, k.(votes := {c.self, from}))
  {
    assert k.votes + {from} == {c.self, from} && |{c.self, from}| == 2;
  }

  lemma InOffice(i: NodeId, from: NodeId, t: Term, log: Log, p: NodeId, q: NodeId)
    requires i in Trio() && Trio()[i] == [p, q]
    ensures var n := |log| + 1;
            RaftStep.Elected(ConfigOf(i), Candidate(i, t, log).(votes := {i, from}))
            == LeaderOf(i, from, t, log, map[p := n, q := n], map[p := 0, q := 0])
  {
    Filled(p, q, |log| + 1);
    Filled(p, q, 0);
  }

  lemma Proposes(i: NodeId, v: NodeId, t: Term, p: NodeId, q: NodeId, cmd: Command, j: nat)
    requires i in Trio() && Trio()[i] == [p, q] && j < 2
    ensures var next, none := map[p := 1, q := 1], map[p := 0, q := 0];
            Does(i, LeaderOf(i, v, t, [], next, none), ClientProposes([cmd]), 0,
                 LeaderOf(i, v, t, [Entry(t, cmd)], next, none), j + 1, [p, q][j],
                 AppendEntries(t, i, 0, 0, 0, [Entry(t, cmd)]))
  {
    var n := LeaderOf(i, v, t, [Entry(t, cmd)], map[p := 1, q := 1], map[p := 0, q := 0]);
    assert Stamped(t, [cmd]) == [Entry(t, cmd)];
    assert [] + [Entry(t, cmd)] == [Entry(t, cmd)];
    NotYet(ConfigOf(i), n, t, cmd);
    Offers(ConfigOf(i), n, [p, q][j], 1);
  }

  lemma NotYet(c: Config, n: Node, t: Term, cmd: Command)
    requires |c.peers| == 2 && n.log == [Entry(t, cmd)] && n.term == t && n.commitIndex == 0
    requires forall p :: p in n.matchIndex ==> n.matchIndex[p] == 0
    ensures AdvanceCommit(c, n, 0) == n
  {
    assert Holders(n.matchIndex, 1) == {};
    assert ScanCommit(c, n.log, t, n.matchIndex, 0, 1) == 0;
  }

  lemma Offers(c: Config, n: Node, p: NodeId, next: nat)
    requires Get(n.nextIndex, p) == next > 0
    ensures AppendFor(c, n, p)
            == AppendEntries(n.term, c.self, next - 1, TermAt(n.log, next - 1), n.commitIndex, EntriesFrom(n.log, next))
  {}

  lemma Accepts1(i: NodeId, f: Node, from: NodeId, e: Entry)
    requires i in Trio() && f == Boot(f.term, f.vote, []).(leaderId := f.leaderId)
    ensures Does(i, f, Receive(from, AppendEntries(f.term, from, 0, 0, 0, [e])), 0,
                 f.(log := [e], leaderId := Some(from)), 1, from, AppendEntriesReply(f.term, true, 1, 0))
  {
    assert Present([], 0, [e]) == 0;
    assert [][..0] + [e][0..] == [e];
    assert [e][0..] == [e];
  }

  /** The second replica of the only entry commits it; `room` is how much the apply sink takes. */
  function Committed(n: Node, p: NodeId, room: nat): Node {
    HandOff(n.(matchIndex := n.matchIndex[p := 1], nextIndex := n.nextIndex[p := 2], commitIndex := 1), room)
  }

  lemma Commits(i: NodeId, v: NodeId, t: Term, p: NodeId, q: NodeId, from: NodeId, cmd: Command, room: nat)
    requires i in Trio() && Trio()[i] == [p, q] && from in [p, q]
    ensures var n := LeaderOf(i, v, t, [Entry(t, cmd)], map[p := 1, q := 1], map[p := 0, q := 0]);
            Becomes(i, n, Receive(from, AppendEntriesReply(t, true, 1, 0)), room, Committed(n, from, room))
  {
    var n := LeaderOf(i, v, t, [Entry(t, cmd)], map[p := 1, q := 1], map[p := 0, q := 0]);
    var m := Acked(n, from, 1);
    assert Holders(m.matchIndex, 1) == {from};
    assert ScanCommit(ConfigOf(i), m.log, t, m.matchIndex, 0, 1) == 1;
  }

  lemma Beats(i: NodeId, n: Node, p: NodeId, q: NodeId, e: Entry)
    requires i in Trio() && Trio()[i] == [p, q] && n.role.Leader? && n.log == [e] && Get(n.nextIndex, p) == 1
    ensures Does(i, n, TimerFires, 0, n, 0, p, AppendEntries(n.term, i, 0, 0, n.commitIndex, [e]))
  {}

  function Deposed(n: Node, t: Term, from: NodeId, e: Entry): Node {
    n.(term := t, vote := None, log := [e], role := Follower, leaderId := Some(from),
       commitIndex := 1, lastApplied := 1, handed := [e])
  }

  /** A deposed leader's entry gives way to the committed one. */
  lemma Overwrites(i: NodeId, n: Node, from: NodeId, t: Term, e: Entry)
    requires i in Trio() && |n.log| == 1 && n.term < t && n.log[0].term != e.term
    requires n.commitIndex == n.lastApplied == 0 && n.handed == []
    ensures Becomes(i, n, Receive(from, AppendEntries(t, from, 0, 0, 1, [e])), 1, Deposed(n, t, from, e))
  {
    var f := Adopt(n, t).node.(leaderId := Some(from), role := Follower);
    assert Present(f.log, 0, [e]) == 0;
    assert Merge(f.log, 0, [e]) == [e];
    assert [e][0..1] == [e] && [] + [e] == [e];
  }

  lemma Rejects(i: NodeId, f: Node, from: NodeId, m: Msg)
    requires i in Trio() && f.role.Follower? && m.AppendEntries? && m.term == f.term && m.prevLogIndex > |f.log|
    ensures Does(i, f, Receive(from, m), 0, f.(leaderId := Some(m.leaderId)), 0, from,
                 AppendEntriesReply(f.term, false, |f.log| + 1, 0))
  {}

  lemma Backs(i: NodeId, n: Node, from: NodeId, e: Entry)
    requires i in Trio() && n.role.Leader? && n.log == [e] && from in n.nextIndex && n.nextIndex[from] == 2
    requires Get(n.matchIndex, from) == 0
    ensures Does(i, n, Receive(from, AppendEntriesReply(n.term, false, 1, 0)), 0,
                 n.(nextIndex := n.nextIndex[from := 1]), 0, from,
                 AppendEntries(n.term, i, 0, 0, n.commitIndex, [e]))
  {}

  /** An acknowledged entry of an older term moves the window and commits nothing. */
  lemma Moves(i: NodeId, n: Node, from: NodeId, e: Entry)
    requires i in Trio() && n.role.Leader? && n.log == [e] && e.term != n.term && Get(n.matchIndex, from) == 0
    ensures Becomes(i, n, Receive(from, AppendEntriesReply(n.term, true, 1, 0)), 0, Acked(n, from, 1))
  {}

  // ---- the same as moves of the cluster -----------------------------------------------------------------------------

  lemma Asking(s: State, i: NodeId, t: Term, vote: Option<NodeId>, log: Log, j: nat) returns (s': State)
    requires i in Trio() && i in s.nodes && s.nodes[i] == Boot(t, vote, log) && j < 2
    ensures Link(s, Run(i, TimerFires, 0), s') && s'.nodes == s.nodes[i := Candidate(i, t + 1, log)]
    ensures s.msgs + {Packet(i, Trio()[i][j], RequestVote(t + 1, i, |log|, LastTerm(log)))} <= s'.msgs
  {
    Asks(i, t, vote, log, j);
    s' := MoveSends(s, i, TimerFires, 0, Candidate(i, t + 1, log), j + 1, Trio()[i][j],
                    RequestVote(t + 1, i, |log|, LastTerm(log)));
  }

  lemma Voting(s: State, i: NodeId, f: Node, from: NodeId, t: Term, n: nat, lt: Term) returns (s': State)
    requires i in Trio() && i in s.nodes && s.nodes[i] == f == Boot(f.term, f.vote, []) && f.term < t
    requires Packet(from, i, RequestVote(t, from, n, lt)) in s.msgs
    ensures Link(s, Run(i, Receive(from, RequestVote(t, from, n, lt)), 0), s')
    ensures s'.nodes == s.nodes[i := Boot(t, Some(from), [])]
    ensures s.msgs + {Packet(i, from, RequestVoteReply(t, true))} <= s'.msgs
  {
    Votes(i, f, from, t, n, lt);
    s' := MoveSends(s, i, Receive(from, RequestVote(t, from, n, lt)), 0, Boot(t, Some(from), []), 2, from,
                    RequestVoteReply(t, true));
  }

  lemma Winning(s: State, i: NodeId, from: NodeId, t: Term, log: Log, p: NodeId, q: NodeId, j: nat) returns (s': State)
    requires i in Trio() && Trio()[i] == [p, q] && from in [p, q] && j < 2
    requires i in s.nodes && s.nodes[i] == Candidate(i, t, log) && Packet(from, i, RequestVoteReply(t, true)) in s.msgs
    ensures Link(s, Run(i, Receive(from, RequestVoteReply(t, true)), 0), s')
    ensures var n := |log| + 1;
            s'.nodes == s.nodes[i := LeaderOf(i, from, t, log, map[p := n, q := n], map[p := 0, q := 0])]
    ensures s.msgs + {Packet(i, [p, q][j], AppendEntries(t, i, |log|, LastTerm(log), 0, []))} <= s'.msgs
  {
    Wins(i, from, t, log, p, q, j);
    var n := |log| + 1;
    s' := MoveSends(s, i, Receive(from, RequestVoteReply(t, true)), 0,
                    LeaderOf(i, from, t, log, map[p := n, q := n], map[p := 0, q := 0]), j, [p, q][j],
                    AppendEntries(t, i, |log|, LastTerm(log), 0, []));
  }

  lemma Proposing(s: State, i: NodeId, v: NodeId, t: Term, p: NodeId, q: NodeId, cmd: Command, j: nat)
    returns (s': State)
    requires i in Trio() && Trio()[i] == [p, q] && j < 2
    requires i in s.nodes && s.nodes[i] == LeaderOf(i, v, t, [], map[p := 1, q := 1], map[p := 0, q := 0])
    ensures Link(s, Run(i, ClientProposes([cmd]), 0), s')
    ensures s'.nodes == s.nodes[i := LeaderOf(i, v, t, [Entry(t, cmd)], map[p := 1, q := 1], map[p := 0, q := 0])]
    ensures s.msgs + {Packet(i, [p, q][j], AppendEntries(t, i, 0, 0, 0, [Entry(t, cmd)]))} <= s'.msgs
  {
    Proposes(i, v, t, p, q, cmd, j);
    s' := MoveSends(s, i, ClientProposes([cmd]), 0,
                    LeaderOf(i, v, t, [Entry(t, cmd)], map[p := 1, q := 1], map[p := 0, q := 0]), j + 1, [p, q][j],
                    AppendEntries(t, i, 0, 0, 0, [Entry(t, cmd)]));
  }

  lemma Accepting(s: State, i: NodeId, f: Node, from: NodeId, e: Entry) returns (s': State)
    requires i in Trio() && i in s.nodes && s.nodes[i] == f == Boot(f.term, f.vote, []).(leaderId := f.leaderId)
    requires Packet(from, i, AppendEntries(f.term, from, 0, 0, 0, [e])) in s.msgs
    ensures Link(s, Run(i, Receive(from, AppendEntries(f.term, from, 0, 0, 0, [e])), 0), s')
    ensures s'.nodes == s.nodes[i := f.(log := [e], leaderId := Some(from))]
    ensures s.msgs + {Packet(i, from, AppendEntriesReply(f.term, true, 1, 0))} <= s'.msgs
  {
    Accepts1(i, f, from, e);
    s' := MoveSends(s, i, Receive(from, AppendEntries(f.term, from, 0, 0, 0, [e])), 0,
                    f.(log := [e], leaderId := Some(from)), 1, from, AppendEntriesReply(f.term, true, 1, 0));
  }

  lemma Committing(s: State, i: NodeId, v: NodeId, t: Term, p: NodeId, q: NodeId, from: NodeId, cmd: Command, room: nat)
    returns (s': State)
    requires i in Trio() && Trio()[i] == [p, q] && from in [p, q] && i in s.nodes
    requires s.nodes[i] == LeaderOf(i, v, t, [Entry(t, cmd)], map[p := 1, q := 1], map[p := 0, q := 0])
    requires Packet(from, i, AppendEntriesReply(t, true, 1, 0)) in s.msgs
    ensures Link(s, Run(i, Receive(from, AppendEntriesReply(t, true, 1, 0)), room), s')
    ensures s'.nodes == s.nodes[i := Committed(s.nodes[i], from, room)] && s.msgs <= s'.msgs
  {
    Commits(i, v, t, p, q, from, cmd, room);
    s' := Move(s, i, Receive(from, AppendEntriesReply(t, true, 1, 0)), room, Committed(s.nodes[i], from, room));
  }

  lemma Beating(s: State, i: NodeId, n: Node, p: NodeId, q: NodeId, e: Entry) returns (s': State)
    requires i in Trio() && Trio()[i] == [p, q] && i in s.nodes && s.nodes[i] == n
    requires n.role.Leader? && n.log == [e] && Get(n.nextIndex, p) == 1
    ensures Link(s, Run(i, TimerFires, 0), s') && s'.nodes == s.nodes
    ensures s.msgs + {Packet(i, p, AppendEntries(n.term, i, 0, 0, n.commitIndex, [e]))} <= s'.msgs
  {
    Beats(i, n, p, q, e);
    s' := MoveSends(s, i, TimerFires, 0, n, 0, p, AppendEntries(n.term, i, 0, 0, n.commitIndex, [e]));
    assert s.nodes[i := n] == s.nodes;
  }

  lemma Overwriting(s: State, i: NodeId, n: Node, from: NodeId, t: Term, e: Entry) returns (s': State)
    requires i in Trio() && i in s.nodes && s.nodes[i] == n && |n.log| == 1 && n.term < t && n.log[0].term != e.term
    requires n.commitIndex == n.lastApplied == 0 && n.handed == []
    requires Packet(from, i, AppendEntries(t, from, 0, 0, 1, [e])) in s.msgs
    ensures Link(s, Run(i, Receive(from, AppendEntries(t, from, 0, 0, 1, [e])), 1), s')
    ensures s'.nodes == s.nodes[i := Deposed(n, t, from, e)]
  {
    Overwrites(i, n, from, t, e);
    s' := Move(s, i, Receive(from, AppendEntries(t, from, 0, 0, 1, [e])), 1, Deposed(n, t, from, e));
  }

  lemma Rejecting(s: State, i: NodeId, f: Node, from: NodeId, m: Msg) returns (s': State)
    requires i in Trio() && i in s.nodes && s.nodes[i] == f && f.role.Follower?
    requires m.AppendEntries? && m.term == f.term && m.prevLogIndex > |f.log| && Packet(from, i, m) in s.msgs
    ensures Link(s, Run(i, Receive(from, m), 0), s') && s'.nodes == s.nodes[i := f.(leaderId := Some(m.leaderId))]
    ensures s.msgs + {Packet(i, from, AppendEntriesReply(f.term, false, |f.log| + 1, 0))} <= s'.msgs
  {
    Rejects(i, f, from, m);
    s' := MoveSends(s, i, Receive(from, m), 0, f.(leaderId := Some(m.leaderId)), 0, from,
                    AppendEntriesReply(f.term, false, |f.log| + 1, 0));
  }

  lemma Backing(s: State, i: NodeId, n: Node, from: NodeId, e: Entry) returns (s': State)
    requires i in Trio() && i in s.nodes && s.nodes[i] == n && n.role.Leader? && n.log == [e]
    requires from in n.nextIndex && n.nextIndex[from] == 2 && Get(n.matchIndex, from) == 0
    requires Packet(from, i, AppendEntriesReply(n.term, false, 1, 0)) in s.msgs
    ensures Link(s, Run(i, Receive(from, AppendEntriesReply(n.term, false, 1, 0)), 0), s')
    ensures s'.nodes == s.nodes[i := n.(nextIndex := n.nextIndex[from := 1])]
    ensures s.msgs + {Packet(i, from, AppendEntries(n.term, i, 0, 0, n.commitIndex, [e]))} <= s'.msgs
  {
    Backs(i, n, from, e);
    s' := MoveSends(s, i, Receive(from, AppendEntriesReply(n.term, false, 1, 0)), 0,
                    n.(nextIndex := n.nextIndex[from := 1]), 0, from,
                    AppendEntries(n.term, i, 0, 0, n.commitIndex, [e]));
  }

  lemma Moving(s: State, i: NodeId, n: Node, from: NodeId, e: Entry) returns (s': State)
    requires i in Trio() && i in s.nodes && s.nodes[i] == n && n.role.Leader? && n.log == [e] && e.term != n.term
    requires Get(n.matchIndex, from) == 0 && Packet(from, i, AppendEntriesReply(n.term, true, 1, 0)) in s.msgs
    ensures Link(s, Run(i, Receive(from, AppendEntriesReply(n.term, true, 1, 0)), 0), s')
    ensures s'.nodes == s.nodes[i := Acked(n, from, 1)] && s.msgs <= s'.msgs
  {
    Moves(i, n, from, e);
    s' := Move(s, i, Receive(from, AppendEntriesReply(n.term, true, 1, 0)), 0, Acked(n, from, 1));
  }

  /** Nothing proposed is nothing done. */
  lemma Idling(s: State, i: NodeId) returns (s': State)
    requires i in Trio() && i in s.nodes
    ensures Link(s, Run(i, ClientProposes([]), 0), s') && s'.nodes == s.nodes
  {
    s' := Move(s, i, ClientProposes([]), 0, s.nodes[i]);
    assert s.nodes[i := s.nodes[i]] == s.nodes;
  }

  /** A crash between events: the node comes back with what is on its disk. */
  lemma Crashing(s: State, i: NodeId) returns (s': State)
    requires i in Trio() && i in s.nodes
    ensures Link(s, Crash(i, PumpApply, 0, 0, 0), s')
    ensures s'.nodes == s.nodes[i := Restarted(s.nodes[i])] && s.msgs <= s'.msgs
  {
    s' := State(s.nodes[i := Restarted(s.nodes[i])], s.msgs);
    assert Sent(i, []) == {};
    assert StepAt(Trio(), [s, s'], [Crash(i, PumpApply, 0, 0, 0)], 0);
  }

  // ---- scripts ------------------------------------------------------------------------------------------------------

  function Start(): State { State(Three(Blank(), Blank(), Blank()), {}) }

  lemma StartIsRun()
    ensures IsRun(Trio(), [Start()], [])
  {
    TrioValid();
    assert Start().nodes.Keys == Trio().Keys;
  }

  /** Node 1 in office, then with one proposal in its log. */
  function Opened(): Node { LeaderOf(1, 2, 1, [], map[2 := 1, 3 := 1], map[2 := 0, 3 := 0]) }

  function Opener(cmd: Command): Node {
    LeaderOf(1, 2, 1, [Entry(1, cmd)], map[2 := 1, 3 := 1], map[2 := 0, 3 := 0])
  }

  /** Node 1 asks for votes, node 2 grants one, node 1 takes office. */
  lemma Election() returns (s1: State, s2: State, s3: State)
    ensures Link(Start(), Run(1, TimerFires, 0), s1)
    ensures Link(s1, Run(2, Receive(1, RequestVote(1, 1, 0, 0)), 0), s2)
    ensures Link(s2, Run(1, Receive(2, RequestVoteReply(1, true)), 0), s3)
    ensures s1.nodes.Keys == s2.nodes.Keys == {1, 2, 3} && s3.nodes == Three(Opened(), Boot(1, Some(1), []), Blank())
  {
    s1 := Asking(Start(), 1, 0, None, [], 0);
    s2 := Voting(s1, 2, Blank(), 1, 1, 0, 0);
    s3 := Winning(s2, 1, 2, 1, [], 2, 3, 0);
    assert s3.nodes == Three(Opened(), Boot(1, Some(1), []), Blank());
  }

  /** Node 2 in office of term 2. */
  function Successor(): Node { LeaderOf(2, 3, 2, [], map[1 := 1, 3 := 1], map[1 := 0, 3 := 0]) }

  /** Node 2 asks for votes, node 3 grants one, node 2 takes office; node 1 does not notice. */
  lemma Takeover(s: State, n: Node) returns (s1: State, s2: State, s3: State)
    requires s.nodes == Three(n, Boot(1, Some(1), []), Blank())
    ensures Link(s, Run(2, TimerFires, 0), s1)
    ensures Link(s1, Run(3, Receive(2, RequestVote(2, 2, 0, 0)), 0), s2)
    ensures Link(s2, Run(2, Receive(3, RequestVoteReply(2, true)), 0), s3)
    ensures s1.nodes.Keys == s2.nodes.Keys == {1, 2, 3} && s3.nodes == Three(n, Successor(), Boot(2, Some(2), []))
  {
    s1 := Asking(s, 2, 1, Some(1), [], 1);
    s2 := Voting(s1, 3, Blank(), 2, 2, 0, 0);
    s3 := Winning(s2, 2, 3, 2, [], 1, 3, 1);
    assert s3.nodes == Three(n, Successor(), Boot(2, Some(2), []));
  }

  /** A run goes on by one action. */
  lemma Onward(run: seq<State>, acts: seq<Action>, a: Action, s: State) returns (run': seq<State>, acts': seq<Action>)
    requires IsRun(Trio(), run, acts) && Link(Last(run), a, s)
    ensures IsRun(Trio(), run', acts') && Last(run') == s
  {
    Extend(run, acts, a, s);
    run', acts' := run + [s], acts + [a];
  }

  /** Node 1 is elected and proposes. */
  lemma Opening(cmd: Command) returns (run: seq<State>, acts: seq<Action>)
    ensures IsRun(Trio(), run, acts) && Last(run).nodes == Three(Opener(cmd), Boot(1, Some(1), []), Blank())
  {
    StartIsRun();
    var s1, s2, s3 := Election();
    run, acts := Onward([Start()], [], Run(1, TimerFires, 0), s1);
    run, acts := Onward(run, acts, Run(2, Receive(1, RequestVote(1, 1, 0, 0)), 0), s2);
    run, acts := Onward(run, acts, Run(1, Receive(2, RequestVoteReply(1, true)), 0), s3);
    var s4 := Proposing(s3, 1, 2, 1, 2, 3, cmd, 0);
    run, acts := Onward(run, acts, Run(1, ClientProposes([cmd]), 0), s4);
    assert s4.nodes == Three(Opener(cmd), Boot(1, Some(1), []), Blank());
  }

  /** Node 1 with its entry, elected again. */
  function Reelected(cmd: Command): Node {
    LeaderOf(1, 2, 2, [Entry(1, cmd)], map[2 := 2, 3 := 2], map[2 := 0, 3 := 0])
  }

  /** Node 1 crashes, comes back and is elected again; node 2 does not have its entry. */
  lemma SecondTerm(cmd: Command) returns (run: seq<State>, acts: seq<Action>)
    ensures IsRun(Trio(), run, acts) && Last(run).nodes == Three(Reelected(cmd), Boot(2, Some(1), []), Blank())
    ensures Packet(1, 2, AppendEntries(2, 1, 1, 1, 0, [])) in Last(run).msgs
  {
    var log := [Entry(1, cmd)];
    run, acts := Opening(cmd);
    var s := Crashing(Last(run), 1);
    run, acts := Onward(run, acts, Crash(1, PumpApply, 0, 0, 0), s);
    s := Asking(s, 1, 1, Some(1), log, 0);
    run, acts := Onward(run, acts, Run(1, TimerFires, 0), s);
    s := Voting(s, 2, Boot(1, Some(1), []), 1, 2, 1, 1);
    run, acts := Onward(run, acts, Run(2, Receive(1, RequestVote(2, 1, 1, 1)), 0), s);
    s := Winning(s, 1, 2, 2, log, 2, 3, 0);
    run, acts := Onward(run, acts, Run(1, Receive(2, RequestVoteReply(2, true)), 0), s);
    assert s.nodes == Three(Reelected(cmd), Boot(2, Some(1), []), Blank());
  }

  /** Node 2 rejects, is sent the entry and acknowledges it; its rejection may still come a second time. */
  lemma CaughtUp(cmd: Command) returns (run: seq<State>, acts: seq<Action>)
    ensures IsRun(Trio(), run, acts) && Packet(2, 1, AppendEntriesReply(2, false, 1, 0)) in Last(run).msgs
    ensures 1 in Last(run).nodes
    ensures Last(run).nodes[1] == Reelected(cmd).(nextIndex := map[2 := 2, 3 := 2], matchIndex := map[2 := 1, 3 := 0])
  {
    var e, n := Entry(1, cmd), Reelected(cmd);
    run, acts := SecondTerm(cmd);
    var s := Rejecting(Last(run), 2, Boot(2, Some(1), []), 1, AppendEntries(2, 1, 1, 1, 0, []));
    run, acts := Onward(run, acts, Run(2, Receive(1, AppendEntries(2, 1, 1, 1, 0, [])), 0), s);
    s := Backing(s, 1, n, 2, e);
    run, acts := Onward(run, acts, Run(1, Receive(2, AppendEntriesReply(2, false, 1, 0)), 0), s);
    s := Accepting(s, 2, Boot(2, Some(1), []).(leaderId := Some(1)), 1, e);
    run, acts := Onward(run, acts, Run(2, Receive(1, AppendEntries(2, 1, 0, 0, 0, [e])), 0), s);
    s := Moving(s, 1, n.(nextIndex := n.nextIndex[2 := 1]), 2, e);
    run, acts := Onward(run, acts, Run(1, Receive(2, AppendEntriesReply(2, true, 1, 0)), 0), s);
    assert map[2 := 2, 3 := 2][2 := 1][2 := 2] == map[2 := 2, 3 := 2]
        && map[2 := 0, 3 := 0][2 := 1] == map[2 := 1, 3 := 0];
  }
}
