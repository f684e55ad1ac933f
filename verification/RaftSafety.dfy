/** Consequences of the invariant over runs: elections, commit indices, truncation; and the exact condition
    under which an unfaithful message would lower commitIndex. */
module RaftSafety {
  import opened Common
  import opened RaftTypes
  import opened RaftStep
  import opened RaftHistory
  import opened RaftHistorySteps
  import opened RaftInvariant
  import opened RaftHandlers
  import opened RaftCrash
  import opened RaftCluster

  // ---- Election Safety ---------------------------------------------------------------------

  predicate Leads(n: Node, t: Term) { n.role.Leader? && n.term == t }

  /** Action k of the run makes its node the leader of term t. */
  ghost predicate WinsAt(run: seq<State>, acts: seq<Action>, k: nat, t: Term)
    requires k < |acts| < |run|
  {
    var i := acts[k].i;
    && i in run[k].nodes && i in run[k + 1].nodes
    && !Leads(run[k].nodes[i], t) && Leads(run[k + 1].nodes[i], t)
  }

  lemma VoteWinFresh(ids: set<NodeId>, c: Config, h: History, n: Node, from: NodeId, r: Msg)
    requires Ready(ids, c, h, n) && r.RequestVoteReply? && PacketInv(ids, h, Packet(from, c.self, r))
    requires n.role.Candidate? && OnRequestVoteReply(c, n, from, r).node.role.Leader?
    ensures n.term !in h.won
  {
    CountedInv(ids, c, h, n, from, r);
    FreshTerm(ids, c, h, n.(votes := n.votes + {from}));
  }

  lemma CampaignWinFresh(ids: set<NodeId>, c: Config, h: History, n: Node)
    requires Ready(ids, c, h, n) && StartElection(c, n).node.role.Leader?
    ensures n.term + 1 !in h.won
  {
    var h1 := CampaignInv(ids, c, h, n);
    FreshTerm(ids, c, h1, Campaigning(c, n));
  }

  /** A node becomes leader of a term only if the term has had no leader before. */
  lemma WinFresh(ids: set<NodeId>, c: Config, h: History, n: Node, e: Event, room: nat)
    requires Ready(ids, c, h, n) && Delivered(ids, h, c, e)
    requires var n' := Step(c, n, e, room).node;
             n'.role.Leader? && !Leads(n, n'.term)
    ensures Step(c, n, e, room).node.term !in h.won
  {
    match e {
      case TimerFires => CampaignWinFresh(ids, c, h, n);
      case Receive(from, m) => MessageWinFresh(ids, c, h, n, from, m, room);
      case ClientProposes(_) => assert false;
      case PumpApply => assert false;
    }
  }

  lemma MessageWinFresh(ids: set<NodeId>, c: Config, h: History, n: Node, from: NodeId, m: Msg, room: nat)
    requires Ready(ids, c, h, n) && PacketInv(ids, h, Packet(from, c.self, m))
    requires var n' := Handle(c, n, from, m, room).node; n'.role.Leader? && !Leads(n, n'.term)
    ensures Handle(c, n, from, m, room).node.term !in h.won
  {
    AdoptInv(ids, h, c.self, n, m.term);
    OnlyVotesElect(c, Adopt(n, m.term).node, from, m, room);
    VoteWinFresh(ids, c, h, Adopt(n, m.term).node, from, m);
  }

  lemma OnlyVotesElect(c: Config, n: Node, from: NodeId, m: Msg, room: nat)
    requires !n.role.Leader? && OnMessage(c, n, from, m, room).node.role.Leader?
    ensures m.RequestVoteReply? && n.role.Candidate? && OnMessage(c, n, from, m, room).node.term == n.term
  {}

  lemma WinsAtFresh(cl: Cluster, run: seq<State>, acts: seq<Action>, hs: seq<History>, k: nat, t: Term)
    requires IsRun(cl, run, acts) && Histories(cl, run, hs) && k < |acts| && WinsAt(run, acts, k, t)
    ensures t !in hs[k].won && t in hs[k + 1].won
  {
    assert StepAt(cl, run, acts, k) && InvAt(cl, run, hs, k) && InvAt(cl, run, hs, k + 1);
    var i, a := acts[k].i, acts[k];
    assert ConfigOk(cl.Keys, Config(i, cl[i]));
    assert NodeInv(cl.Keys, hs[k], i, run[k].nodes[i]) && NodeInv(cl.Keys, hs[k + 1], i, run[k + 1].nodes[i]);
    WinFresh(cl.Keys, Config(i, cl[i]), hs[k], run[k].nodes[i], a.e, a.room);
  }

  /** A term is won at most once in a run, across all nodes and all their incarnations. */
  lemma ElectionSafety(cl: Cluster, run: seq<State>, acts: seq<Action>, k: nat, m: nat, t: Term)
    requires IsRun(cl, run, acts) && k < |acts| && m < |acts|
    requires WinsAt(run, acts, k, t) && WinsAt(run, acts, m, t)
    ensures k == m
  {
    var hs := RunInv(cl, run, acts);
    WinsAtFresh(cl, run, acts, hs, k, t);
    WinsAtFresh(cl, run, acts, hs, m, t);
    if k < m {
      WonStays(cl, run, hs, k + 1, m, t);
      assert false;
    } else if m < k {
      WonStays(cl, run, hs, m + 1, k, t);
      assert false;
    }
  }

  lemma WonStays(cl: Cluster, run: seq<State>, hs: seq<History>, a: nat, b: nat, t: Term)
    requires Histories(cl, run, hs) && a <= b < |hs| && t in hs[a].won
    ensures t in hs[b].won
  {
    assert GrowsAt(hs, a, b);
  }

  /** Two leaders of one term, at whatever times, are the same node. */
  lemma OneLeaderPerTerm(cl: Cluster, run: seq<State>, acts: seq<Action>, a: nat, b: nat, i: NodeId, j: NodeId, t: Term)
    requires IsRun(cl, run, acts) && a <= b < |run| && i in run[a].nodes && j in run[b].nodes
    requires Leads(run[a].nodes[i], t) && Leads(run[b].nodes[j], t)
    ensures i == j
  {
    var hs := RunInv(cl, run, acts);
    assert InvAt(cl, run, hs, a) && InvAt(cl, run, hs, b) && GrowsAt(hs, a, b);
    assert NodeInv(cl.Keys, hs[a], i, run[a].nodes[i]) && NodeInv(cl.Keys, hs[b], j, run[b].nodes[j]);
  }

  // ---- commit index -----------------------------------------------------------------------------

  /** In every state of every run lastApplied <= commitIndex <= lastIndex, what was handed over is
      the applied prefix of the log, and log terms never decrease. */
  lemma CommitBounds(cl: Cluster, run: seq<State>, acts: seq<Action>, a: nat, i: NodeId)
    requires IsRun(cl, run, acts) && a < |run| && i in run[a].nodes
    ensures var n := run[a].nodes[i];
            && n.lastApplied <= n.commitIndex <= |n.log| && n.handed == n.log[..n.lastApplied]
            && Sorted(n.log) && TermsAtMost(n.log, n.term)
  {
    var hs := RunInv(cl, run, acts);
    assert InvAt(cl, run, hs, a);
    TracedIsSorted(hs[a], run[a].nodes[i].log);
  }

  /** Whatever the event, the committed prefix stays in the log and commitIndex does not go down. */
  ghost predicate KeepsCommitted(n: Node, n': Node) {
    && n.commitIndex <= n'.commitIndex && n.lastApplied <= n'.lastApplied
    && n.commitIndex <= |n.log| && n.log[..n.commitIndex] <= n'.log
    && n.handed <= n'.handed
  }

  lemma AcceptKeepsCommitted(ids: set<NodeId>, c: Config, h: History, f: Node, from: NodeId, ae: Msg, room: nat)
    requires Ready(ids, c, h, f) && ae.AppendEntries? && ae.term == f.term && f.role.Follower?
    requires PacketInv(ids, h, Packet(from, c.self, ae)) && Accepts(f, ae)
    ensures KeepsCommitted(f, Accept(f, from, ae, room).node)
  {
    MergeGood(ids, h, f, Packet(from, c.self, ae));
    FollowInv(ids, h, c.self, f, Merge(f.log, ae.prevLogIndex, ae.entries));
  }

  ghost predicate Bounded(n: Node) {
    n.lastApplied <= n.commitIndex <= |n.log| && n.handed == n.log[..n.lastApplied]
  }

  lemma AdvanceKeepsCommitted(c: Config, n: Node, room: nat)
    requires Bounded(n)
    ensures KeepsCommitted(n, AdvanceCommit(c, n, room))
  {
    ScanFinds(c, n.log, n.term, n.matchIndex, n.commitIndex, |n.log|);
  }

  lemma ProposeKeepsCommitted(c: Config, n: Node, commands: seq<Command>, room: nat)
    requires Bounded(n)
    ensures KeepsCommitted(n, Propose(c, n, commands, room).node)
  {
    if commands != [] && n.role.Leader? {
      var m := n.(log := n.log + Stamped(n.term, commands));
      assert m.log[..m.lastApplied] == n.log[..n.lastApplied];
      assert n.log[..n.commitIndex] == m.log[..n.commitIndex];
      AdvanceKeepsCommitted(c, m, room);
    }
  }

  lemma MessageKeepsCommitted(ids: set<NodeId>, c: Config, h: History, n: Node, from: NodeId, m: Msg, room: nat)
    requires Ready(ids, c, h, n) && PacketInv(ids, h, Packet(from, c.self, m)) && m.term <= n.term
    ensures KeepsCommitted(n, OnMessage(c, n, from, m, room).node)
  {
    match m {
      case AppendEntries(_, _, _, _, _, _) =>
        if Accepts(n, m) {
          FollowerInv(ids, h, c.self, n, m.leaderId);
          AcceptKeepsCommitted(ids, c, h, n.(leaderId := Some(m.leaderId), role := Follower), from, m, room);
        }
      case AppendEntriesReply(_, _, k, _) => ReplyKeepsCommitted(c, n, from, m, room);
      case RequestVote(_, _, _, _) =>
      case RequestVoteReply(_, _) =>
    }
  }

  lemma ReplyKeepsCommitted(c: Config, n: Node, from: NodeId, r: Msg, room: nat)
    requires Bounded(n) && r.AppendEntriesReply?
    ensures KeepsCommitted(n, OnAppendEntriesReply(c, n, from, r, room).node)
  {
    AdvanceKeepsCommitted(c, Acked(n, from, r.conflictIndex), room);
  }

  lemma StepKeepsCommitted(ids: set<NodeId>, c: Config, h: History, n: Node, e: Event, room: nat)
    requires Ready(ids, c, h, n) && Delivered(ids, h, c, e)
    ensures KeepsCommitted(n, Step(c, n, e, room).node)
  {
    match e {
      case TimerFires =>
      case Receive(from, m) =>
        AdoptInv(ids, h, c.self, n, m.term);
        MessageKeepsCommitted(ids, c, h, Adopt(n, m.term).node, from, m, room);
      case ClientProposes(commands) => ProposeKeepsCommitted(c, n, commands, room);
      case PumpApply =>
    }
  }

  /** commitIndex, lastApplied and the entries handed over never go back within an incarnation. */
  lemma CommitMonotone(cl: Cluster, run: seq<State>, acts: seq<Action>, k: nat, i: NodeId)
    requires IsRun(cl, run, acts) && k < |acts| && i in run[k].nodes
    requires acts[k].i == i ==> acts[k].Run?
    ensures i in run[k + 1].nodes && KeepsCommitted(run[k].nodes[i], run[k + 1].nodes[i])
  {
    var hs := RunInv(cl, run, acts);
    assert StepAt(cl, run, acts, k) && InvAt(cl, run, hs, k);
    NextKeepsCommitted(cl, run[k], hs[k], acts[k], run[k + 1], i);
  }

  lemma NextKeepsCommitted(cl: Cluster, s: State, h: History, a: Action, s': State, i: NodeId)
    requires ValidCluster(cl) && Inv(cl, s, h) && Next(cl, s, a, s') && i in s.nodes
    requires a.i == i ==> a.Run?
    ensures i in s'.nodes && KeepsCommitted(s.nodes[i], s'.nodes[i])
  {
    assert NodeInv(cl.Keys, h, i, s.nodes[i]);
    if a.i == i { OwnStepKeepsCommitted(cl, s, h, a, s'); }
  }

  lemma OwnStepKeepsCommitted(cl: Cluster, s: State, h: History, a: Action, s': State)
    requires ValidCluster(cl) && Inv(cl, s, h) && Next(cl, s, a, s') && a.Run?
    ensures a.i in s'.nodes && KeepsCommitted(s.nodes[a.i], s'.nodes[a.i])
  {
    assert NodeInv(cl.Keys, h, a.i, s.nodes[a.i]);
    assert ConfigOk(cl.Keys, Config(a.i, cl[a.i]));
    StepKeepsCommitted(cl.Keys, Config(a.i, cl[a.i]), h, s.nodes[a.i], a.e, a.room);
  }

  /** No handler ever truncates at or below its node's commit index: every TruncateLog effect, and
      so every crash image, spares the committed entries. */
  lemma TruncationSparesCommitted(cl: Cluster, run: seq<State>, acts: seq<Action>, a: nat, i: NodeId, e: Event,
                                  room: nat, x: nat)
    requires IsRun(cl, run, acts) && a < |run| && Enabled(cl, run[a], i, e)
    requires var es := Step(Config(i, cl[i]), run[a].nodes[i], e, room).effects;
             x < |es| && es[x].TruncateLog?
    ensures Step(Config(i, cl[i]), run[a].nodes[i], e, room).effects[x].from > run[a].nodes[i].commitIndex
  {
    var hs := RunInv(cl, run, acts);
    assert InvAt(cl, run, hs, a);
    var c, n := Config(i, cl[i]), run[a].nodes[i];
    assert ConfigOk(cl.Keys, c);
    assert NodeInv(cl.Keys, hs[a], i, n);
    WritesSpareCommitted(cl.Keys, c, hs[a], n, e, room, x);
  }

  lemma WritesSpareCommitted(ids: set<NodeId>, c: Config, h: History, n: Node, e: Event, room: nat, x: nat)
    requires Ready(ids, c, h, n) && Delivered(ids, h, c, e)
    requires x < |Step(c, n, e, room).effects| && Step(c, n, e, room).effects[x].TruncateLog?
    ensures Step(c, n, e, room).effects[x].from > n.commitIndex
  {
    TruncationIsMerge(c, n, e, room, x);
    AdoptInv(ids, h, c.self, n, e.msg.term);
    TruncatesAbove(ids, c, h, Adopt(n, e.msg.term).node, e.from, e.msg);
  }

  lemma TruncationIsMerge(c: Config, n: Node, e: Event, room: nat, x: nat)
    requires x < |Step(c, n, e, room).effects| && Step(c, n, e, room).effects[x].TruncateLog?
    ensures e.Receive? && e.msg.AppendEntries?
    ensures var a := Adopt(n, e.msg.term).node;
            && Accepts(a, e.msg)
            && var p := Present(a.log, e.msg.prevLogIndex, e.msg.entries);
            && p < |e.msg.entries| && e.msg.prevLogIndex + p < |a.log|
            && Step(c, n, e, room).effects[x].from == e.msg.prevLogIndex + p + 1
  {
    var rest := PersistsBeforeSend(c, n, e, room);
    assert x < |Writes(c, n, e)| && Writes(c, n, e)[x] == Step(c, n, e, room).effects[x];
  }

  lemma TruncatesAbove(ids: set<NodeId>, c: Config, h: History, n: Node, from: NodeId, m: Msg)
    requires Ready(ids, c, h, n) && PacketInv(ids, h, Packet(from, c.self, m)) && m.term <= n.term
    requires m.AppendEntries? && Accepts(n, m)
    ensures var p := Present(n.log, m.prevLogIndex, m.entries);
            p < |m.entries| && m.prevLogIndex + p < |n.log| ==> m.prevLogIndex + p >= n.commitIndex
  {
    var l := h.leaderLog[n.term];
    MergeGood(ids, h, n, Packet(from, c.self, m));
    var q := n.log[..n.commitIndex];
    LeaderHasCommitted(ids, h, q, n.term);
    assert forall x :: 0 <= x < n.commitIndex ==> n.log[x] == q[x] == l[x];
  }

  /** A leader never receives an AppendEntries of its own term, and no peer acknowledges more than
      its leader holds: the two branches that log a violation are dead. */
  lemma ViolationBranchesDead(cl: Cluster, run: seq<State>, acts: seq<Action>, a: nat, i: NodeId, p: Packet)
    requires IsRun(cl, run, acts) && a < |run| && i in run[a].nodes && p in run[a].msgs && p.to == i
    requires Leads(run[a].nodes[i], p.msg.term)
    ensures !p.msg.AppendEntries?
    ensures p.msg.AppendEntriesReply? && p.msg.success ==> p.msg.conflictIndex <= |run[a].nodes[i].log|
  {
    var hs := RunInv(cl, run, acts);
    assert InvAt(cl, run, hs, a);
    assert NodeInv(cl.Keys, hs[a], i, run[a].nodes[i]) && PacketInv(cl.Keys, hs[a], p);
    if p.msg.AppendEntriesReply? && p.msg.success { assert AckSound(cl.Keys, hs[a], p.from, p.msg.term); }
  }

  // ---- the Figure 8 scan ---------------------------------------------------------------------------

  /** advanceCommit's early exit loses nothing: with nondecreasing terms it still reaches every
      index that the rule allows, so the one it takes is the greatest. */
  lemma {:induction false} ScanGreatest(c: Config, log: Log, cur: Term, m: map<NodeId, nat>, low: nat, i: nat, x: nat)
    requires Sorted(log) && TermsAtMost(log, cur) && low < x <= i <= |log|
    requires TermAt(log, x) == cur && Replicas(m, x) >= c.Majority()
    ensures x <= ScanCommit(c, log, cur, m, low, i) <= i
  {
    assert log[x - 1].term <= log[i - 1].term <= cur;
    if Replicas(m, i) < c.Majority() {
      ScanGreatest(c, log, cur, m, low, i - 1, x);
    }
  }

  // ---- a commit index lowered by an unfaithful message ------------------------------------------------

  /** For an arbitrary message commitIndex goes down exactly when it announces a newer commit yet
      vouches for less than is committed already; no leader ever sends such a message. */
  lemma CommitDropsIff(n: Node, from: NodeId, ae: Msg, room: nat)
    requires ae.AppendEntries?
    ensures OnAppendEntries(n, from, ae, room).node.commitIndex < n.commitIndex
            <==> (Accepts(n, ae) && ae.leaderCommit > n.commitIndex
                  && ae.prevLogIndex + |ae.entries| < n.commitIndex)
  {
    if Accepts(n, ae) {
      var f := n.(leaderId := Some(ae.leaderId), role := Follower);
      assert OnAppendEntries(n, from, ae, room) == Accept(f, from, ae, room);
    }
  }

  lemma CommitCanDrop() returns (n: Node, ae: Msg)
    ensures ae.AppendEntries? && OnAppendEntries(n, 1, ae, 0).node.commitIndex < n.commitIndex
  {
    n := Boot(1, None, [Entry(1, []), Entry(1, [])]).(commitIndex := 2);
    ae := AppendEntries(1, 1, 0, 0, 3, []);
    CommitDropsIff(n, 1, ae, 0);
  }
}
