/** What a node does as soon as it can: a leader commits every entry of its term that more than half of the nodes
    hold, and whoever learns of committed entries hands them over as far as the state machine takes them. */
module RaftPromptness {
  import opened Common
  import opened RaftTypes
  import opened RaftStep
  import opened RaftHistory
  import opened RaftInvariant
  import opened RaftHandlers
  import opened RaftCrash
  import opened RaftCluster
  import opened RaftSafety
  import opened RaftElections

  // ---- committing -----------------------------------------------------------------------------------------

  /** The nodes that hold index x as far as leader i knows, itself included. */
  function KnownHolders(ids: set<NodeId>, i: NodeId, n: Node, x: nat): set<NodeId> {
    set p | p in ids && (p == i || Get(n.matchIndex, p) >= x)
  }

  /** Nothing that leader n may commit is left uncommitted. */
  ghost predicate Prompt(ids: set<NodeId>, i: NodeId, n: Node) {
    n.role.Leader? ==>
      forall x :: n.commitIndex < x <= |n.log| && TermAt(n.log, x) == n.term ==>
                    !MoreThanHalf(ids, KnownHolders(ids, i, n, x))
  }

  lemma HoldersCounted(ids: set<NodeId>, i: NodeId, n: Node, x: nat)
    requires i in ids && x > 0 && forall p :: p in n.matchIndex ==> p in ids && p != i
    ensures |KnownHolders(ids, i, n, x)| == Replicas(n.matchIndex, x)
  {
    var held := Holders(n.matchIndex, x);
    assert KnownHolders(ids, i, n, x) == {i} + held;
  }

  lemma AdvanceIsPrompt(ids: set<NodeId>, c: Config, n: Node, room: nat)
    requires ConfigOk(ids, c) && Sorted(n.log) && TermsAtMost(n.log, n.term)
    requires forall p :: p in n.matchIndex ==> p in ids && p != c.self
    ensures Prompt(ids, c.self, AdvanceCommit(c, n, room))
  {
    var n' := AdvanceCommit(c, n, room);
    forall x | n'.commitIndex < x <= |n.log| && TermAt(n.log, x) == n.term
      ensures !MoreThanHalf(ids, KnownHolders(ids, c.self, n', x))
    {
      HoldersCounted(ids, c.self, n, x);
      MajorityIsMoreThanHalf(ids, c, KnownHolders(ids, c.self, n, x));
      if Replicas(n.matchIndex, x) >= c.Majority() {
        ScanGreatest(c, n.log, n.term, n.matchIndex, n.commitIndex, |n.log|, x);
      }
    }
  }

  /** At its election a leader's log holds no entry of its term yet. */
  lemma NewLeaderIsPrompt(ids: set<NodeId>, c: Config, h: History, k: Node)
    requires HistInv(ids, h) && LogInv(h, k) && k.term !in h.won
    ensures Prompt(ids, c.self, Elected(c, k))
  {
    forall x | 1 <= x <= |k.log| ensures TermAt(k.log, x) != k.term {
      assert TracedAt(h, k.log, x - 1);
    }
  }

  lemma TickIsPrompt(ids: set<NodeId>, c: Config, h: History, n: Node)
    requires Ready(ids, c, h, n) && Prompt(ids, c.self, n)
    ensures Prompt(ids, c.self, Tick(c, n).node)
  {
    if !n.role.Leader? && StartElection(c, n).node.role.Leader? {
      CampaignWinFresh(ids, c, h, n);
      NewLeaderIsPrompt(ids, c, h, Campaigning(c, n));
    }
  }

  lemma ProposeIsPrompt(ids: set<NodeId>, c: Config, h: History, n: Node, commands: seq<Command>, room: nat)
    requires Ready(ids, c, h, n) && Prompt(ids, c.self, n)
    ensures Prompt(ids, c.self, Propose(c, n, commands, room).node)
  {
    if commands != [] && n.role.Leader? {
      TracedIsSorted(h, n.log);
      assert forall p :: p in n.matchIndex ==> MatchInv(ids, h, c.self, n, p);
      AdvanceIsPrompt(ids, c, n.(log := n.log + Stamped(n.term, commands)), room);
    }
  }

  lemma ReplyIsPrompt(ids: set<NodeId>, c: Config, h: History, n: Node, from: NodeId, r: Msg, room: nat)
    requires Ready(ids, c, h, n) && Prompt(ids, c.self, n) && r.AppendEntriesReply? && from in ids && from != c.self
    ensures Prompt(ids, c.self, OnAppendEntriesReply(c, n, from, r, room).node)
  {
    if n.role.Leader? && r.term == n.term {
      TracedIsSorted(h, n.log);
      assert forall p :: p in n.matchIndex ==> MatchInv(ids, h, c.self, n, p);
      if r.success {
        AdvanceIsPrompt(ids, c, Acked(n, from, r.conflictIndex), room);
      } else {
        SamePrompt(ids, c.self, n, n.(nextIndex := n.nextIndex[from := Backtracked(n, from, r)]));
      }
    }
  }

  lemma SamePrompt(ids: set<NodeId>, i: NodeId, n: Node, n': Node)
    requires Prompt(ids, i, n) && n'.role == n.role && n'.term == n.term && n'.log == n.log
    requires n'.matchIndex == n.matchIndex && n'.commitIndex == n.commitIndex
    ensures Prompt(ids, i, n')
  {
    assert forall x :: KnownHolders(ids, i, n', x) == KnownHolders(ids, i, n, x);
  }

  lemma VotesArePrompt(ids: set<NodeId>, c: Config, h: History, n: Node, from: NodeId, r: Msg)
    requires Ready(ids, c, h, n) && Prompt(ids, c.self, n) && r.RequestVoteReply?
    requires PacketInv(ids, h, Packet(from, c.self, r))
    ensures Prompt(ids, c.self, OnRequestVoteReply(c, n, from, r).node)
  {
    if n.role.Candidate? && OnRequestVoteReply(c, n, from, r).node.role.Leader? {
      VoteWinFresh(ids, c, h, n, from, r);
      NewLeaderIsPrompt(ids, c, h, n.(votes := n.votes + {from}));
    }
  }

  lemma MessageIsPrompt(ids: set<NodeId>, c: Config, h: History, n: Node, from: NodeId, m: Msg, room: nat)
    requires Ready(ids, c, h, n) && Prompt(ids, c.self, n) && PacketInv(ids, h, Packet(from, c.self, m))
    ensures Prompt(ids, c.self, OnMessage(c, n, from, m, room).node)
  {
    match m {
      case RequestVote(_, _, _, _) => SamePrompt(ids, c.self, n, OnRequestVote(n, from, m).node);
      case RequestVoteReply(_, _) => VotesArePrompt(ids, c, h, n, from, m);
      case AppendEntries(_, _, _, _, _, _) => FollowersStay(n, from, m, room);
      case AppendEntriesReply(_, _, _, _) => ReplyIsPrompt(ids, c, h, n, from, m, room);
    }
  }

  lemma FollowersStay(n: Node, from: NodeId, m: Msg, room: nat)
    requires m.AppendEntries?
    ensures OnAppendEntries(n, from, m, room).node == n || !OnAppendEntries(n, from, m, room).node.role.Leader?
  {}

  lemma StepIsPrompt(ids: set<NodeId>, c: Config, h: History, n: Node, e: Event, room: nat)
    requires Ready(ids, c, h, n) && Delivered(ids, h, c, e) && Prompt(ids, c.self, n)
    ensures Prompt(ids, c.self, Step(c, n, e, room).node)
  {
    match e {
      case TimerFires => TickIsPrompt(ids, c, h, n);
      case Receive(from, m) =>
        AdoptInv(ids, h, c.self, n, m.term);
        MessageIsPrompt(ids, c, h, Adopt(n, m.term).node, from, m, room);
      case ClientProposes(commands) => ProposeIsPrompt(ids, c, h, n, commands, room);
      case PumpApply => SamePrompt(ids, c.self, n, HandOff(n, room));
    }
  }

  /** In every state of every run a leader has committed every entry of its term that it knows more than half
      of the nodes to hold. */
  lemma {:induction false} LeadersArePrompt(cl: Cluster, run: seq<State>, acts: seq<Action>, a: nat, i: NodeId)
    requires IsRun(cl, run, acts) && a < |run| && i in run[a].nodes
    ensures Prompt(cl.Keys, i, run[a].nodes[i])
    decreases a
  {
    if a == 0 {
      assert run[0].nodes[i].role.Follower?;
    } else {
      SameMembers(cl, run, acts, a - 1);
      LeadersArePrompt(cl, run, acts, a - 1, i);
      StaysPrompt(cl, run, acts, a - 1, i);
    }
  }

  lemma SameMembers(cl: Cluster, run: seq<State>, acts: seq<Action>, k: nat)
    requires IsRun(cl, run, acts) && k < |acts|
    ensures run[k].nodes.Keys == run[k + 1].nodes.Keys
  {
    assert StepAt(cl, run, acts, k);
  }

  lemma StaysPrompt(cl: Cluster, run: seq<State>, acts: seq<Action>, k: nat, i: NodeId)
    requires IsRun(cl, run, acts) && k < |acts| && i in run[k].nodes && i in run[k + 1].nodes
    requires Prompt(cl.Keys, i, run[k].nodes[i])
    ensures Prompt(cl.Keys, i, run[k + 1].nodes[i])
  {
    var hs := RunInv(cl, run, acts);
    assert StepAt(cl, run, acts, k) && InvAt(cl, run, hs, k);
    NextIsPrompt(cl, run[k], hs[k], acts[k], run[k + 1], i);
  }

  lemma NextIsPrompt(cl: Cluster, s: State, h: History, a: Action, s': State, i: NodeId)
    requires ValidCluster(cl) && Inv(cl, s, h) && Next(cl, s, a, s')
    requires i in s.nodes && i in s'.nodes && Prompt(cl.Keys, i, s.nodes[i])
    ensures Prompt(cl.Keys, i, s'.nodes[i])
  {
    if a.Run? && a.i == i {
      assert Ready(cl.Keys, Config(i, cl[i]), h, s.nodes[i]) by {
        assert NodeInv(cl.Keys, h, i, s.nodes[i]);
        assert ConfigOk(cl.Keys, Config(i, cl[i]));
      }
      StepIsPrompt(cl.Keys, Config(i, cl[i]), h, s.nodes[i], a.e, a.room);
    } else {
      OthersOrBooted(cl, s, a, s', i);
    }
  }

  lemma OthersOrBooted(cl: Cluster, s: State, a: Action, s': State, i: NodeId)
    requires Next(cl, s, a, s') && i in s.nodes && i in s'.nodes && (a.Crash? || a.i != i)
    ensures s'.nodes[i] == s.nodes[i] || s'.nodes[i].role.Follower?
  {}

  /** And it has committed nothing on its own that fewer hold: when a leader's commit index moves, it moves to
      an entry of its term that more than half of the nodes are known to hold. */
  lemma CommitNeedsMoreThanHalf(cl: Cluster, run: seq<State>, acts: seq<Action>, k: nat)
    requires IsRun(cl, run, acts) && k < |acts| && acts[k].Run?
    ensures var i := acts[k].i;
            && i in run[k].nodes && i in run[k + 1].nodes
            && var n, n' := run[k].nodes[i], run[k + 1].nodes[i];
            n'.role.Leader? && n'.commitIndex > n.commitIndex ==>
              && TermAt(n'.log, n'.commitIndex) == n'.term
              && MoreThanHalf(cl.Keys, KnownHolders(cl.Keys, i, n', n'.commitIndex))
  {
    var hs := RunInv(cl, run, acts);
    var a := acts[k];
    assert StepAt(cl, run, acts, k) && InvAt(cl, run, hs, k);
    assert NodeInv(cl.Keys, hs[k], a.i, run[k].nodes[a.i]);
    assert ConfigOk(cl.Keys, Config(a.i, cl[a.i]));
    assert Delivered(cl.Keys, hs[k], Config(a.i, cl[a.i]), a.e);
    StepCommitsHeld(cl.Keys, Config(a.i, cl[a.i]), hs[k], run[k].nodes[a.i], a.e, a.room);
  }

  /** Where a commit index that moved came from. */
  ghost predicate CommitsHeld(ids: set<NodeId>, i: NodeId, n: Node, n': Node) {
    n'.role.Leader? && n'.commitIndex > n.commitIndex ==>
      TermAt(n'.log, n'.commitIndex) == n'.term && MoreThanHalf(ids, KnownHolders(ids, i, n', n'.commitIndex))
  }

  lemma AdvanceCommitsHeld(ids: set<NodeId>, c: Config, n: Node, room: nat)
    requires ConfigOk(ids, c) && forall p :: p in n.matchIndex ==> p in ids && p != c.self
    ensures CommitsHeld(ids, c.self, n, AdvanceCommit(c, n, room))
  {
    var n' := AdvanceCommit(c, n, room);
    if n'.commitIndex > n.commitIndex {
      ScanFinds(c, n.log, n.term, n.matchIndex, n.commitIndex, |n.log|);
      HoldersCounted(ids, c.self, n', n'.commitIndex);
      MajorityIsMoreThanHalf(ids, c, KnownHolders(ids, c.self, n', n'.commitIndex));
    }
  }

  lemma StepCommitsHeld(ids: set<NodeId>, c: Config, h: History, n: Node, e: Event, room: nat)
    requires Ready(ids, c, h, n) && Delivered(ids, h, c, e)
    ensures CommitsHeld(ids, c.self, n, Step(c, n, e, room).node)
  {
    match e {
      case TimerFires =>
      case Receive(from, m) =>
        AdoptInv(ids, h, c.self, n, m.term);
        MessageCommitsHeld(ids, c, h, Adopt(n, m.term).node, from, m, room);
      case ClientProposes(commands) =>
        if commands != [] && n.role.Leader? {
          assert forall p :: p in n.matchIndex ==> MatchInv(ids, h, c.self, n, p);
          AdvanceCommitsHeld(ids, c, n.(log := n.log + Stamped(n.term, commands)), room);
        }
      case PumpApply =>
    }
  }

  lemma MessageCommitsHeld(ids: set<NodeId>, c: Config, h: History, n: Node, from: NodeId, m: Msg, room: nat)
    requires Ready(ids, c, h, n) && PacketInv(ids, h, Packet(from, c.self, m))
    ensures CommitsHeld(ids, c.self, n, OnMessage(c, n, from, m, room).node)
  {
    match m {
      case RequestVote(_, _, _, _) =>
      case RequestVoteReply(_, _) =>
      case AppendEntries(_, _, _, _, _, _) => FollowersStay(n, from, m, room);
      case AppendEntriesReply(_, _, _, _) =>
        if n.role.Leader? && m.success {
          assert forall p :: p in n.matchIndex ==> MatchInv(ids, h, c.self, n, p);
          AdvanceCommitsHeld(ids, c, Acked(n, from, m.conflictIndex), room);
        }
    }
  }

  // ---- handing over -----------------------------------------------------------------------------------------

  /** From n to n' committed entries went out in order, and either all of them or as many as there was room for. */
  ghost predicate HandedOver(n: Node, n': Node, room: nat) {
    && n.lastApplied <= n'.lastApplied <= n'.commitIndex <= |n'.log|
    && n'.handed == n.handed + n'.log[n.lastApplied..n'.lastApplied]
    && (n'.lastApplied == n'.commitIndex || n'.lastApplied == n.lastApplied + room)
  }

  lemma HandOffHandsOver(n: Node, room: nat)
    requires n.lastApplied <= n.commitIndex <= |n.log|
    ensures HandedOver(n, HandOff(n, room), room)
  {}

  lemma AdvanceHandsOver(c: Config, n: Node, room: nat)
    requires n.lastApplied <= n.commitIndex <= |n.log| && AdvanceCommit(c, n, room).commitIndex > n.commitIndex
    ensures HandedOver(n, AdvanceCommit(c, n, room), room)
  {
    ScanFinds(c, n.log, n.term, n.matchIndex, n.commitIndex, |n.log|);
    HandOffHandsOver(n.(commitIndex := AdvanceCommit(c, n, room).commitIndex), room);
  }

  lemma AcceptHandsOver(f: Node, from: NodeId, ae: Msg, room: nat)
    requires ae.AppendEntries? && ae.prevLogIndex <= |f.log| && f.lastApplied <= f.commitIndex
    requires var f' := Accept(f, from, ae, room).node; f.commitIndex < f'.commitIndex <= |f'.log|
    ensures HandedOver(f, Accept(f, from, ae, room).node, room)
  {
    var merged := f.(log := Merge(f.log, ae.prevLogIndex, ae.entries));
    HandOffHandsOver(merged.(commitIndex := Min(ae.leaderCommit, ae.prevLogIndex + |ae.entries|)), room);
  }

  lemma MessageHandsOver(c: Config, n: Node, from: NodeId, m: Msg, room: nat)
    requires n.lastApplied <= n.commitIndex <= |n.log|
    requires var n' := OnMessage(c, n, from, m, room).node; n.commitIndex < n'.commitIndex <= |n'.log|
    ensures HandedOver(n, OnMessage(c, n, from, m, room).node, room)
  {
    if m.AppendEntries? {
      AcceptHandsOver(n.(leaderId := Some(m.leaderId), role := Follower), from, m, room);
    } else {
      AdvanceHandsOver(c, Acked(n, from, m.conflictIndex), room);
    }
  }

  lemma StepHandsOver(c: Config, n: Node, e: Event, room: nat)
    requires n.lastApplied <= n.commitIndex <= |n.log|
    requires var n' := Step(c, n, e, room).node;
             n'.commitIndex <= |n'.log| && (n.commitIndex < n'.commitIndex || e.PumpApply?)
    ensures HandedOver(n, Step(c, n, e, room).node, room)
  {
    match e {
      case TimerFires => assert false;
      case Receive(from, m) => MessageHandsOver(c, Adopt(n, m.term).node, from, m, room);
      case ClientProposes(commands) =>
        AdvanceHandsOver(c, n.(log := n.log + Stamped(n.term, commands)), room);
      case PumpApply => HandOffHandsOver(n, room);
    }
  }

  /** Every event that raises the commit index, and every pump, hands over all that is committed, or exactly as
      many entries as the state machine had room for. */
  lemma CommittedIsHandedOver(cl: Cluster, run: seq<State>, acts: seq<Action>, k: nat)
    requires IsRun(cl, run, acts) && k < |acts| && acts[k].Run?
    ensures var i := acts[k].i;
            && i in run[k].nodes && i in run[k + 1].nodes
            && var n, n' := run[k].nodes[i], run[k + 1].nodes[i];
            n'.commitIndex > n.commitIndex || acts[k].e.PumpApply? ==> HandedOver(n, n', acts[k].room)
  {
    var i := acts[k].i;
    assert StepAt(cl, run, acts, k);
    CommitBounds(cl, run, acts, k, i);
    CommitBounds(cl, run, acts, k + 1, i);
    var n, n' := run[k].nodes[i], run[k + 1].nodes[i];
    if n'.commitIndex > n.commitIndex || acts[k].e.PumpApply? {
      StepHandsOver(Config(i, cl[i]), n, acts[k].e, acts[k].room);
    }
  }
}
