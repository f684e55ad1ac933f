/** Conflict backtracking: how a leader finds the point where a follower's log agrees with its own, and why
    that takes a bounded number of rounds. */
module RaftBacktracking {
  import opened RaftTypes
  import opened RaftStep
  import opened RaftHistory
  import opened RaftHistorySteps
  import opened RaftInvariant
  import opened RaftCrash
  import opened RaftCluster
  import opened RaftSafety
  import opened RaftReplication
  import opened RaftScripts

  /** The leader's search finds its last entry of a term, if it has one. */
  lemma {:induction false} LastOfTermExactly(log: Log, t: Term, i: nat)
    requires i <= |log|
    ensures var x := LastOfTerm(log, t, i);
            && (x > 0 ==> TermAt(log, x) == t)
            && (forall y :: x < y <= i ==> TermAt(log, y) != t)
  {
    if i > 0 && TermAt(log, i) != t { LastOfTermExactly(log, t, i - 1); }
  }

  /** The hint of a rejection points below prev: by Log Matching the leader's own last entry of the
      conflicting term lies below it too. */
  lemma HintBelowPrev(h: History, l: Log, f: Log, prev: nat)
    requires Traced(h, l) && Traced(h, f)
    requires 1 <= prev <= |l| && prev <= |f| && TermAt(f, prev) != TermAt(l, prev)
    ensures LastOfTerm(l, TermAt(f, prev), |l|) < prev
  {
    var t := TermAt(f, prev);
    var x := LastOfTerm(l, t, |l|);
    LastOfTermExactly(l, t, |l|);
    if x >= prev {
      SameLeaderAgrees(h, l, x, f, prev);
      assert false;
    }
  }

  lemma SameLeaderAgrees(h: History, l: Log, x: nat, f: Log, prev: nat)
    requires Traced(h, l) && Traced(h, f) && 1 <= prev <= |f| && prev <= x <= |l| && TermAt(l, x) == TermAt(f, prev)
    ensures TermAt(l, prev) == TermAt(f, prev)
  {
    var t := TermAt(f, prev);
    assert TracedAt(h, l, x - 1) && TracedAt(h, f, prev - 1);
    assert l[..x][prev - 1] == h.leaderLog[t][prev - 1] == f[..prev][prev - 1];
  }

  /** The rejection that a follower with log f sends for an AppendEntries at prev. */
  ghost predicate Rejection(f: Log, prev: nat, prevTerm: Term, r: Msg) {
    && r.AppendEntriesReply? && !r.success
    && if prev > |f| then r.conflictIndex == |f| + 1 && r.conflictTerm == 0
       else && TermAt(f, prev) != prevTerm && r.conflictTerm == TermAt(f, prev)
            && StartsRun(f, r.conflictIndex, prev)
  }

  lemma BacktrackedBounds(h: History, n: Node, v: NodeId, f: Log, r: Msg)
    requires Traced(h, n.log) && Traced(h, f)
    requires 1 <= Get(n.nextIndex, v) <= |n.log| + 1 && Get(n.matchIndex, v) < Get(n.nextIndex, v)
    requires Rejection(f, Get(n.nextIndex, v) - 1, TermAt(n.log, Get(n.nextIndex, v) - 1), r)
    ensures Get(n.matchIndex, v) < Backtracked(n, v, r) <= Get(n.nextIndex, v)
    ensures Backtracked(n, v, r) < Get(n.nextIndex, v) <==> Get(n.matchIndex, v) + 1 < Get(n.nextIndex, v)
  {
    var prev := Get(n.nextIndex, v) - 1;
    if 1 <= prev <= |f| { HintBelowPrev(h, n.log, f, prev); }
  }

  lemma TermsPositive(ids: set<NodeId>, h: History, log: Log, x: nat)
    requires HistInv(ids, h) && Traced(h, log) && 1 <= x <= |log|
    ensures TermAt(log, x) >= 1
  {
    var t := TermAt(log, x);
    assert TracedAt(h, log, x - 1);
    assert WinBacked(ids, h, t);
    assert BallotSound(ids, h, h.won[t].leader, t);
  }

  /** The two logs agree up to index x. */
  ghost predicate AgreeUpTo(l: Log, f: Log, x: nat) { x <= |l| && x <= |f| && l[..x] == f[..x] }

  lemma SameTerm(l: Log, f: Log, x: nat, y: nat)
    requires AgreeUpTo(l, f, x) && y <= x
    ensures TermAt(l, y) == TermAt(f, y)
  {
    if y > 0 { assert l[..x][y - 1] == f[..x][y - 1]; }
  }

  /** Backtracking never goes below what the two logs share: nothing is resent that the hint shows the
      follower to hold. */
  lemma NeverOvershoots(n: Node, v: NodeId, f: Log, r: Msg, x: nat)
    requires Sorted(n.log) && Sorted(f) && 1 <= Get(n.nextIndex, v) <= |n.log| + 1
    requires Rejection(f, Get(n.nextIndex, v) - 1, TermAt(n.log, Get(n.nextIndex, v) - 1), r)
    requires r.conflictTerm > 0 || Get(n.nextIndex, v) - 1 > |f|
    requires AgreeUpTo(n.log, f, x)
    ensures x < Backtracked(n, v, r)
  {
    var l, prev, t := n.log, Get(n.nextIndex, v) - 1, r.conflictTerm;
    if prev <= |f| {
      LastOfTermExactly(l, t, |l|);
      var first, last := r.conflictIndex, LastOfTerm(l, t, |l|);
      if x >= prev {
        SameTerm(l, f, x, prev);
      } else if last == 0 && x >= first {
        SameTerm(l, f, x, first);
      } else if 0 < last < x {
        assert l[last - 1].term <= l[x - 1].term && f[x - 1].term <= f[prev - 1].term;
        SameTerm(l, f, x, x);
      }
    }
  }

  /** Backtracking makes progress: a rejection of an AppendEntries sent at nextIndex - 1, arriving
      while nextIndex is still there, lowers nextIndex strictly and keeps it above matchIndex;
      unless an acknowledgement has since proved that very point, when it stays. It never goes below what the
      two logs have in common. */
  lemma RejectionLowersNext(cl: Cluster, run: seq<State>, acts: seq<Action>, a: nat, b: nat, i: NodeId, v: NodeId,
                            p: Packet, r: Msg)
    requires IsRun(cl, run, acts) && a <= b < |run| && i in run[b].nodes && v in run[a].nodes
    requires p in run[a].msgs && p.from == i && p.to == v && p.msg.AppendEntries?
    requires Rejection(run[a].nodes[v].log, p.msg.prevLogIndex, p.msg.prevLogTerm, r)
    requires Leads(run[b].nodes[i], p.msg.term) && Get(run[b].nodes[i].nextIndex, v) == p.msg.prevLogIndex + 1
    ensures var n := run[b].nodes[i];
            && Get(n.matchIndex, v) < Backtracked(n, v, r) <= Get(n.nextIndex, v)
            && (Backtracked(n, v, r) < Get(n.nextIndex, v) <==> Get(n.matchIndex, v) + 1 < Get(n.nextIndex, v))
            && (forall x: nat :: AgreeUpTo(n.log, run[a].nodes[v].log, x) ==> x < Backtracked(n, v, r))
  {
    var hs := RunInv(cl, run, acts);
    assert InvAt(cl, run, hs, a) && InvAt(cl, run, hs, b) && GrowsAt(hs, a, b);
    assert NodeInv(cl.Keys, hs[b], i, run[b].nodes[i]) && NodeInv(cl.Keys, hs[a], v, run[a].nodes[v]);
    assert PacketInv(cl.Keys, hs[a], p);
    PacketStable(cl.Keys, hs[a], hs[b], p);
    TracedStable(hs[a], hs[b], run[a].nodes[v].log);
    LeaderBacktracks(cl.Keys, hs[b], run[b].nodes[i], p, run[a].nodes[v].log, r);
  }

  lemma LeaderBacktracks(ids: set<NodeId>, h: History, n: Node, p: Packet, f: Log, r: Msg)
    requires HistInv(ids, h) && NodeInv(ids, h, p.from, n) && PacketInv(ids, h, p) && p.msg.AppendEntries?
    requires Traced(h, f) && Leads(n, p.msg.term) && Get(n.nextIndex, p.to) == p.msg.prevLogIndex + 1
    requires Rejection(f, p.msg.prevLogIndex, p.msg.prevLogTerm, r)
    ensures Get(n.matchIndex, p.to) < Backtracked(n, p.to, r) <= Get(n.nextIndex, p.to)
    ensures Backtracked(n, p.to, r) < Get(n.nextIndex, p.to) <==> Get(n.matchIndex, p.to) + 1 < Get(n.nextIndex, p.to)
    ensures forall x: nat :: AgreeUpTo(n.log, f, x) ==> x < Backtracked(n, p.to, r)
  {
    assert p.to in n.nextIndex;
    BacktrackedBounds(h, n, p.to, f, r);
    TracedIsSorted(h, n.log);
    TracedIsSorted(h, f);
    var prev := p.msg.prevLogIndex;
    if 1 <= prev <= |f| { TermsPositive(ids, h, f, prev); }
    forall x: nat | AgreeUpTo(n.log, f, x) ensures x < Backtracked(n, p.to, r) {
      NeverOvershoots(n, p.to, f, r, x);
    }
  }

  /** The stale case occurs: in this run the point was proved by an acknowledgement while the rejection was
      under way a second time. */
  lemma StaleRejectionStays(cmd: Command) returns (run: seq<State>, acts: seq<Action>, r: Msg)
    ensures IsRun(Trio(), run, acts) && 1 in Last(run).nodes && Packet(2, 1, r) in Last(run).msgs
    ensures var n := Last(run).nodes[1];
            && Leads(n, r.term) && Rejection([], 1, TermAt(n.log, 1), r)
            && Get(n.nextIndex, 2) == 2 && Get(n.matchIndex, 2) == 1 && Backtracked(n, 2, r) == 2
  {
    run, acts := CaughtUp(cmd);
    r := AppendEntriesReply(2, false, 1, 0);
  }

  // ---- whole exchanges ----------------------------------------------------------------------------------------

  /** Leader n and follower f, with v the follower's id, as far as backtracking is concerned. */
  ghost predicate Probing(h: History, n: Node, f: Node, v: NodeId) {
    && n.role.Leader? && f.term <= n.term && !Leads(f, n.term)
    && Traced(h, n.log) && Traced(h, f.log)
    && Get(n.matchIndex, v) < Get(n.nextIndex, v) <= |n.log| + 1
    && Get(n.matchIndex, v) <= |f.log| && n.log[..Get(n.matchIndex, v)] == f.log[..Get(n.matchIndex, v)]
  }

  /** Does the follower accept what the leader sends it next? */
  predicate Accepted(c: Config, n: Node, f: Node, v: NodeId) {
    Accepts(Adopt(f, n.term).node, AppendFor(c, n, v))
  }

  /** The follower's answer to what the leader sends it next, and the two nodes after it. */
  function AnswerTo(c: Config, n: Node, f: Node, v: NodeId, room: nat): Outcome {
    Handle(Config(v, []), f, c.self, AppendFor(c, n, v), room)
  }

  function ReplyIn(o: Outcome): Msg {
    if o.effects != [] && o.effects[|o.effects| - 1].Send? then o.effects[|o.effects| - 1].msg
    else AppendEntriesReply(0, false, 0, 0)
  }

  function LeaderAfter(c: Config, n: Node, f: Node, v: NodeId, room: nat): Node {
    Handle(c, n, v, ReplyIn(AnswerTo(c, n, f, v, room)), room).node
  }

  /** One rejected round: a send, a reply and its handling. */
  ghost predicate RejectedRound(c: Config, v: NodeId, room: nat, ns: seq<Node>, fs: seq<Node>, k: nat)
    requires k + 1 < |ns| == |fs|
  {
    && !Accepted(c, ns[k], fs[k], v)
    && fs[k + 1] == AnswerTo(c, ns[k], fs[k], v, room).node && ns[k + 1] == LeaderAfter(c, ns[k], fs[k], v, room)
  }

  /** Rounds of one leader and one follower, all rejected. */
  ghost predicate Exchange(c: Config, v: NodeId, room: nat, ns: seq<Node>, fs: seq<Node>) {
    && |ns| == |fs| > 0
    && forall k {:trigger RejectedRound(c, v, room, ns, fs, k)} :: 0 <= k < |ns| - 1 ==>
         RejectedRound(c, v, room, ns, fs, k)
  }

  /** A probe right above the proven match is accepted. */
  lemma MatchAccepted(h: History, c: Config, n: Node, f: Node, v: NodeId)
    requires Probing(h, n, f, v) && Get(n.nextIndex, v) == Get(n.matchIndex, v) + 1
    ensures Accepted(c, n, f, v)
  {
    var m := Get(n.matchIndex, v);
    if m > 0 { assert n.log[..m][m - 1] == f.log[..m][m - 1]; }
  }

  lemma RejectedHere(f: Node, from: NodeId, m: Msg, room: nat)
    requires m.AppendEntries? && m.term == f.term && !f.role.Leader? && !Accepts(f, m)
    ensures var o := OnAppendEntries(f, from, m, room);
            && |o.effects| == 1 && o.effects[0].Send? && o.effects[0].msg.term == f.term
            && Rejection(f.log, m.prevLogIndex, m.prevLogTerm, o.effects[0].msg)
            && o.node.log == f.log && o.node.term == f.term && !o.node.role.Leader?
  {
    FirstOfRunStarts(f.log, m.prevLogIndex);
  }

  lemma RejectedReply(h: History, c: Config, n: Node, f: Node, v: NodeId, room: nat)
    requires Probing(h, n, f, v) && !Accepted(c, n, f, v)
    ensures var o, prev := AnswerTo(c, n, f, v, room), Get(n.nextIndex, v) - 1;
            && Rejection(f.log, prev, TermAt(n.log, prev), ReplyIn(o)) && ReplyIn(o).term == n.term
            && o.node.log == f.log && o.node.term == n.term && !o.node.role.Leader?
  {
    RejectedHere(Adopt(f, n.term).node, c.self, AppendFor(c, n, v), room);
  }

  /** A rejected round leaves the pair as it was, but for a smaller nextIndex. */
  lemma RoundLowers(h: History, c: Config, n: Node, f: Node, v: NodeId, room: nat)
    requires Probing(h, n, f, v) && !Accepted(c, n, f, v)
    ensures var n' := LeaderAfter(c, n, f, v, room);
            && Probing(h, n', AnswerTo(c, n, f, v, room).node, v)
            && Get(n'.matchIndex, v) == Get(n.matchIndex, v) && Get(n'.nextIndex, v) < Get(n.nextIndex, v)
  {
    RejectedReply(h, c, n, f, v, room);
    var r := ReplyIn(AnswerTo(c, n, f, v, room));
    assert LeaderAfter(c, n, f, v, room) == n.(nextIndex := n.nextIndex[v := Backtracked(n, v, r)]);
    BacktrackedBounds(h, n, v, f.log, r);
    if Get(n.nextIndex, v) == Get(n.matchIndex, v) + 1 { MatchAccepted(h, c, n, f, v); }
  }

  lemma {:induction false} RoundsLower(h: History, c: Config, v: NodeId, room: nat, ns: seq<Node>, fs: seq<Node>,
                                       k: nat)
    requires Exchange(c, v, room, ns, fs) && Probing(h, ns[0], fs[0], v) && k < |ns|
    ensures Probing(h, ns[k], fs[k], v) && Get(ns[k].matchIndex, v) == Get(ns[0].matchIndex, v)
    ensures Get(ns[k].nextIndex, v) + k <= Get(ns[0].nextIndex, v)
    decreases k
  {
    if k > 0 {
      RoundsLower(h, c, v, room, ns, fs, k - 1);
      assert RejectedRound(c, v, room, ns, fs, k - 1);
      RoundLowers(h, c, ns[k - 1], fs[k - 1], v, room);
    }
  }

  /** What a follower has acknowledged to this leader it still holds. */
  lemma MatchHeld(ids: set<NodeId>, h: History, i: NodeId, n: Node, v: NodeId, f: Node)
    requires NodeInv(ids, h, i, n) && NodeInv(ids, h, v, f) && n.role.Leader? && f.term <= n.term
    ensures var m := Get(n.matchIndex, v); m <= |n.log| && m <= |f.log| && n.log[..m] == f.log[..m]
  {
    var m := Get(n.matchIndex, v);
    if m > 0 {
      assert MatchInv(ids, h, i, n, v);
      assert AckKept(h, v, f.log, f.term, n.term);
      assert Kept(h, f.log, n.term, m, f.term + 1);
    }
  }

  lemma ProbingAt(cl: Cluster, run: seq<State>, acts: seq<Action>, a: nat, i: NodeId, v: NodeId) returns (h: History)
    requires IsRun(cl, run, acts) && a < |run| && i in run[a].nodes && v in run[a].nodes && i != v
    requires run[a].nodes[i].role.Leader? && run[a].nodes[v].term <= run[a].nodes[i].term
    ensures HistInv(cl.Keys, h) && Probing(h, run[a].nodes[i], run[a].nodes[v], v)
  {
    var hs := RunInv(cl, run, acts);
    h := hs[a];
    assert InvAt(cl, run, hs, a);
    var n, f := run[a].nodes[i], run[a].nodes[v];
    assert NodeInv(cl.Keys, h, i, n) && NodeInv(cl.Keys, h, v, f);
    MatchHeld(cl.Keys, h, i, n, v, f);
    assert v in n.nextIndex;
  }

  /** From any state of any run, let a leader and a follower that is not ahead of its term exchange
      AppendEntries and replies: fewer than nextIndex - matchIndex rounds are rejected before one is
      accepted. */
  lemma BacktrackingTerminates(cl: Cluster, run: seq<State>, acts: seq<Action>, a: nat, i: NodeId, v: NodeId, room: nat,
                               ns: seq<Node>, fs: seq<Node>)
    requires IsRun(cl, run, acts) && a < |run| && i in cl && i in run[a].nodes && v in run[a].nodes && i != v
    requires run[a].nodes[i].role.Leader? && run[a].nodes[v].term <= run[a].nodes[i].term
    requires Exchange(Config(i, cl[i]), v, room, ns, fs) && ns[0] == run[a].nodes[i] && fs[0] == run[a].nodes[v]
    ensures |ns| - 1 < Get(ns[0].nextIndex, v) - Get(ns[0].matchIndex, v)
  {
    var h := ProbingAt(cl, run, acts, a, i, v);
    RoundsLower(h, Config(i, cl[i]), v, room, ns, fs, |ns| - 1);
  }

  // ---- one round per term -------------------------------------------------------------------------------------

  /** Does the leader's next probe fall inside the follower's log, and on which term? */
  predicate LandsInside(n: Node, f: Log, v: NodeId) { 1 <= Get(n.nextIndex, v) <= |f| + 1 }

  function ProbedTerm(n: Node, f: Log, v: NodeId): Term
    requires LandsInside(n, f, v)
  {
    TermAt(f, Get(n.nextIndex, v) - 1)
  }

  /** A rejected probe inside the log hit a term that is not the leader's, above the proven match. */
  lemma ProbeMisses(h: History, c: Config, n: Node, f: Node, v: NodeId)
    requires Probing(h, n, f, v) && !Accepted(c, n, f, v) && LandsInside(n, f.log, v)
    ensures Get(n.nextIndex, v) > Get(n.matchIndex, v) + 1
    ensures ProbedTerm(n, f.log, v) != TermAt(n.log, Get(n.nextIndex, v) - 1)
  {
    if Get(n.nextIndex, v) == Get(n.matchIndex, v) + 1 { MatchAccepted(h, c, n, f, v); }
  }

  /** The hint leads inside the follower's log. */
  lemma HintLands(h: History, n: Node, f: Log, v: NodeId, r: Msg)
    requires Traced(h, n.log) && Traced(h, f)
    requires Get(n.matchIndex, v) < Get(n.nextIndex, v) <= |n.log| + 1 && Get(n.matchIndex, v) <= |f|
    requires Rejection(f, Get(n.nextIndex, v) - 1, TermAt(n.log, Get(n.nextIndex, v) - 1), r)
    ensures 1 <= Backtracked(n, v, r) <= |f| + 1
  {
    var prev := Get(n.nextIndex, v) - 1;
    if 1 <= prev <= |f| { HintBelowPrev(h, n.log, f, prev); }
  }

  /** It leads below the follower's run of the conflicting term, or to the leader's own last entry of it. */
  lemma HintSkips(ids: set<NodeId>, h: History, n: Node, f: Log, v: NodeId, r: Msg, x: nat)
    requires HistInv(ids, h) && Traced(h, n.log) && Traced(h, f)
    requires 1 < Get(n.nextIndex, v) <= |n.log| + 1 && Get(n.nextIndex, v) - 1 <= |f|
    requires Rejection(f, Get(n.nextIndex, v) - 1, TermAt(n.log, Get(n.nextIndex, v) - 1), r)
    requires x + 1 == Backtracked(n, v, r) > Get(n.matchIndex, v) + 1 && TermAt(f, x) != TermAt(n.log, x)
    ensures TermAt(f, x) < r.conflictTerm
  {
    var prev := Get(n.nextIndex, v) - 1;
    TermsPositive(ids, h, f, prev);
    TracedIsSorted(h, f);
    LastOfTermExactly(n.log, r.conflictTerm, |n.log|);
    HintBelowPrev(h, n.log, f, prev);
    assert x >= 1 ==> f[x - 1].term <= f[prev - 1].term;
  }

  lemma RoundSkipsTerm(ids: set<NodeId>, h: History, c: Config, n: Node, f: Node, v: NodeId, room: nat)
    requires HistInv(ids, h) && Probing(h, n, f, v) && !Accepted(c, n, f, v)
    ensures var n', f' := LeaderAfter(c, n, f, v, room), AnswerTo(c, n, f, v, room).node;
            && f'.log == f.log && LandsInside(n', f.log, v)
            && (LandsInside(n, f.log, v) && !Accepted(c, n', f', v) ==>
                  ProbedTerm(n', f.log, v) < ProbedTerm(n, f.log, v))
  {
    var n', f' := LeaderAfter(c, n, f, v, room), AnswerTo(c, n, f, v, room).node;
    RejectedReply(h, c, n, f, v, room);
    RoundLowers(h, c, n, f, v, room);
    var r := ReplyIn(AnswerTo(c, n, f, v, room));
    assert n' == n.(nextIndex := n.nextIndex[v := Backtracked(n, v, r)]);
    HintLands(h, n, f.log, v, r);
    if LandsInside(n, f.log, v) && !Accepted(c, n', f', v) {
      ProbeMisses(h, c, n, f, v);
      ProbeMisses(h, c, n', f', v);
      HintSkips(ids, h, n, f.log, v, r, Backtracked(n, v, r) - 1);
    }
  }

  function TermsOf(log: Log): set<Term> { set x | 0 <= x < |log| :: log[x].term }

  function TermsBelow(log: Log, t: Term): set<Term> { set x | 0 <= x < |log| && log[x].term < t :: log[x].term }

  lemma Fewer(a: set<Term>, b: set<Term>, u: Term)
    requires a <= b && u in b && u !in a
    ensures |a| < |b|
  {
    SubsetSize(a + {u}, b);
  }

  lemma FewerBelow(log: Log, x: nat, t: Term)
    requires 1 <= x <= |log|
    ensures |TermsBelow(log, TermAt(log, x))| < |TermsOf(log)|
    ensures TermAt(log, x) < t ==> |TermsBelow(log, TermAt(log, x))| < |TermsBelow(log, t)|
  {
    var u := TermAt(log, x);
    assert log[x - 1].term == u;
    Fewer(TermsBelow(log, u), TermsOf(log), u);
    if u < t { Fewer(TermsBelow(log, u), TermsBelow(log, t), u); }
  }

  /** After a rejected round, if the next one is rejected too. */
  lemma NextProbe(ids: set<NodeId>, h: History, c: Config, v: NodeId, room: nat, ns: seq<Node>, fs: seq<Node>, k: nat)
    requires HistInv(ids, h) && Exchange(c, v, room, ns, fs) && 1 <= k < |ns| - 1
    requires Probing(h, ns[k - 1], fs[k - 1], v)
    ensures Probing(h, ns[k], fs[k], v) && fs[k].log == fs[k - 1].log
    ensures 2 <= Get(ns[k].nextIndex, v) <= |fs[k].log| + 1
    ensures LandsInside(ns[k - 1], fs[k].log, v) ==>
              ProbedTerm(ns[k], fs[k].log, v) < ProbedTerm(ns[k - 1], fs[k].log, v)
  {
    var n, f := ns[k - 1], fs[k - 1];
    assert RejectedRound(c, v, room, ns, fs, k - 1) && RejectedRound(c, v, room, ns, fs, k);
    RoundSkipsTerm(ids, h, c, n, f, v, room);
    RoundLowers(h, c, n, f, v, room);
    ProbeMisses(h, c, ns[k], fs[k], v);
  }

  lemma {:induction false} RoundsLeaveTerms(ids: set<NodeId>, h: History, c: Config, v: NodeId, room: nat,
                                            ns: seq<Node>, fs: seq<Node>, k: nat)
    requires HistInv(ids, h) && Exchange(c, v, room, ns, fs) && Probing(h, ns[0], fs[0], v)
    requires 1 <= k < |ns| - 1
    ensures Probing(h, ns[k], fs[k], v) && fs[k].log == fs[0].log && LandsInside(ns[k], fs[0].log, v)
    ensures |TermsBelow(fs[0].log, ProbedTerm(ns[k], fs[0].log, v))| + k <= |TermsOf(fs[0].log)|
    decreases k
  {
    var log := fs[0].log;
    if k == 1 {
      NextProbe(ids, h, c, v, room, ns, fs, k);
      FewerBelow(log, Get(ns[k].nextIndex, v) - 1, 0);
    } else {
      RoundsLeaveTerms(ids, h, c, v, room, ns, fs, k - 1);
      NextProbe(ids, h, c, v, room, ns, fs, k);
      FewerBelow(log, Get(ns[k].nextIndex, v) - 1, ProbedTerm(ns[k - 1], log, v));
    }
  }

  /** The hint of a rejection disposes of a whole term: from any state of any run, an exchange has at most one
      rejected round for each term in the follower's log, and one more to find its end. */
  lemma RoundsByTerm(cl: Cluster, run: seq<State>, acts: seq<Action>, a: nat, i: NodeId, v: NodeId, room: nat,
                     ns: seq<Node>, fs: seq<Node>)
    requires IsRun(cl, run, acts) && a < |run| && i in cl && i in run[a].nodes && v in run[a].nodes && i != v
    requires run[a].nodes[i].role.Leader? && run[a].nodes[v].term <= run[a].nodes[i].term
    requires Exchange(Config(i, cl[i]), v, room, ns, fs) && ns[0] == run[a].nodes[i] && fs[0] == run[a].nodes[v]
    ensures |ns| - 1 <= |TermsOf(fs[0].log)| + 1
  {
    var h := ProbingAt(cl, run, acts, a, i, v);
    if |ns| > 2 { RoundsLeaveTerms(cl.Keys, h, Config(i, cl[i]), v, room, ns, fs, |ns| - 2); }
  }
}
