/** The hand-off of committed entries from the Raft thread to the apply thread, through the
    single-producer ring. A full ring refuses an entry; the Raft thread offers it again later. */
module ApplyPipeline {
  import opened RaftTypes
  import C = RaftCluster
  import RaftSafety
  import S = SpscRing

  datatype Item = Item(index: nat, entry: Entry)

  /** What the Raft core owns, and the ring with both threads' progress in it. */
  datatype Pipeline = Pipeline(log: Log, commitIndex: nat, lastApplied: nat, ring: S.Ring<Item>)

  /** The core's own moves: any change of the log above the commit index, any advance of the commit
      index within the log. */
  ghost predicate CoreMoves(s: Pipeline, s': Pipeline) {
    && s.ring.producer.Idle? && s'.ring == s.ring && s'.lastApplied == s.lastApplied
    && s.commitIndex <= s'.commitIndex <= |s'.log|
    && s.commitIndex <= |s.log| && s'.log[..s.commitIndex] == s.log[..s.commitIndex]
  }

  /** The loop of applyCommitted offers the next entry. */
  ghost predicate Offers(s: Pipeline, s': Pipeline) {
    && s.ring.producer.Idle? && s.lastApplied < s.commitIndex <= |s.log|
    && S.Shaped(s.ring)
    && s' == s.(ring := S.Step(s.ring, S.Push(Item(s.lastApplied + 1, s.log[s.lastApplied]))))
  }

  /** A step inside the ring; lastApplied follows the publication of a slot and nothing else. */
  ghost predicate RingMoves(s: Pipeline, s': Pipeline, a: S.Action<Item>) {
    && !a.Push? && S.Shaped(s.ring) && S.Ready(s.ring, a)
    && s' == s.(ring := S.Step(s.ring, a), lastApplied := if a.StoreTail? then s.lastApplied + 1 else s.lastApplied)
  }

  ghost predicate Next(s: Pipeline, s': Pipeline) {
    CoreMoves(s, s') || Offers(s, s') || exists a :: RingMoves(s, s', a)
  }

  ghost predicate Init(s: Pipeline) {
    S.Init(s.ring) && s.lastApplied == 0 && s.commitIndex <= |s.log|
  }

  /** The first n entries of the log, numbered from 1. */
  function Items(log: Log, n: nat): (r: seq<Item>)
    requires n <= |log|
    ensures |r| == n && forall k :: 0 <= k < n ==> r[k] == Item(k + 1, log[k])
  {
    seq(n, k requires 0 <= k < n => Item(k + 1, log[k]))
  }

  ghost predicate Inv(s: Pipeline) {
    && S.Inv(s.ring) && s.lastApplied <= s.commitIndex <= |s.log|
    && s.ring.pushed == Items(s.log, s.lastApplied)
    && (!s.ring.producer.Idle? ==>
          s.lastApplied < s.commitIndex && s.ring.producer.v == Item(s.lastApplied + 1, s.log[s.lastApplied]))
  }

  lemma InitInv(s: Pipeline)
    requires Init(s)
    ensures Inv(s)
  {}

  lemma NextInv(s: Pipeline, s': Pipeline)
    requires Inv(s) && Next(s, s')
    ensures Inv(s')
  {
    if CoreMoves(s, s') {
      ItemsKept(s.log, s'.log, s.commitIndex, s.lastApplied);
    } else if Offers(s, s') {
      S.StepInv(s.ring, S.Push(Item(s.lastApplied + 1, s.log[s.lastApplied])));
    } else {
      var a :| RingMoves(s, s', a);
      S.StepInv(s.ring, a);
      if a.StoreTail? { assert s'.ring.pushed == Items(s.log, s.lastApplied) + [s.ring.producer.v]; }
    }
  }

  lemma ItemsKept(a: Log, b: Log, commit: nat, n: nat)
    requires n <= commit <= |a| && commit <= |b| && a[..commit] == b[..commit]
    ensures Items(a, n) == Items(b, n)
  {
    forall k | 0 <= k < n ensures a[k] == b[k] {
      assert a[k] == a[..commit][k] && b[k] == b[..commit][k];
    }
  }

  ghost predicate IsRun(run: seq<Pipeline>) {
    run != [] && Init(run[0]) && forall k {:trigger NextAt(run, k)} :: 0 <= k < |run| - 1 ==> NextAt(run, k)
  }

  ghost predicate NextAt(run: seq<Pipeline>, k: nat)
    requires k + 1 < |run|
  {
    Next(run[k], run[k + 1])
  }

  lemma {:induction false} RunInv(run: seq<Pipeline>, k: nat)
    requires IsRun(run) && k < |run|
    ensures Inv(run[k])
  {
    if k == 0 {
      InitInv(run[0]);
    } else {
      RunInv(run, k - 1);
      assert NextAt(run, k - 1);
      NextInv(run[k - 1], run[k]);
    }
  }

  /** Lossless and exactly once: what the apply thread has consumed, followed by what waits in the
      ring, is the log up to lastApplied with its index numbers; so the state machine has always
      seen a prefix of the committed log. */
  lemma HandOffExact(run: seq<Pipeline>, k: nat)
    requires IsRun(run) && k < |run|
    ensures var s := run[k];
            && s.lastApplied <= s.commitIndex <= |s.log|
            && |s.ring.delivered| <= |s.ring.pushed|
            && s.ring.delivered + S.Queue(s.ring) == Items(s.log, s.lastApplied)
            && |S.Queue(s.ring)| <= s.ring.cap
            && s.ring.delivered == Items(s.log, |s.ring.delivered|)
  {
    RunInv(run, k);
    var s := run[k];
    assert s.ring.delivered == s.ring.pushed[..|s.ring.delivered|];
  }

  /** Between hand-offs, whatever a node of a Raft run does is one of the core's moves. */
  lemma RaftMovesAreCoreMoves(cl: C.Cluster, run: seq<C.State>, acts: seq<C.Action>, k: nat, i: NodeId,
                              ring: S.Ring<Item>)
    requires C.IsRun(cl, run, acts) && k < |acts| && i in run[k].nodes && ring.producer.Idle?
    requires acts[k].i == i ==> acts[k].Run?
    ensures i in run[k + 1].nodes
    ensures var n, n' := run[k].nodes[i], run[k + 1].nodes[i];
            && CoreMoves(Pipeline(n.log, n.commitIndex, n.lastApplied, ring),
                         Pipeline(n'.log, n'.commitIndex, n.lastApplied, ring))
            && n'.lastApplied <= |n'.log| && n.lastApplied <= n'.lastApplied
            && n'.handed == n.handed + n'.log[n.lastApplied..n'.lastApplied]
  {
    RaftSafety.CommitMonotone(cl, run, acts, k, i);
    RaftSafety.CommitBounds(cl, run, acts, k, i);
    RaftSafety.CommitBounds(cl, run, acts, k + 1, i);
    var n, n' := run[k].nodes[i], run[k + 1].nodes[i];
    assert n.handed == n'.handed[..|n.handed|];
    assert n'.handed == n'.log[..n.lastApplied] + n'.log[n.lastApplied..n'.lastApplied];
    assert n.log[..n.commitIndex] == n'.log[..n.commitIndex];
  }

  /** A refusal costs nothing: lastApplied stays, so the same entry is the next one offered. */
  lemma RefusalReoffers(s: Pipeline, s': Pipeline)
    requires Inv(s) && RingMoves(s, s', S.LoadHead) && s'.ring.producer.Idle?
    ensures s.ring.tail - s.ring.head == s.ring.cap
    ensures s'.lastApplied == s.lastApplied < s'.commitIndex && s'.ring.pushed == s.ring.pushed
    ensures s.ring.producer.v == Item(s'.lastApplied + 1, s'.log[s'.lastApplied])
  {
    S.StepInv(s.ring, S.LoadHead);
  }
}
