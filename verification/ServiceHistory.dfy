/** The order in which the cluster executed the clients' operations explains everything they saw. */
module ServiceHistory {
  import opened Wire
  import opened KvOps
  import opened Sessions
  import opened RaftTypes
  import opened RaftStep
  import C = RaftCluster
  import opened EndToEnd
  import L = Linearizability
  import KvStore
  import ClientService

  // ---- executions in one log --------------------------------------------------------------------------

  lemma ExecutesOnce(sv: Service, w: Clients, log: seq<Bytes>, j: nat, k: nat, i: nat)
    requires OpsOk(sv, w) && Executes(sv, w, log, j, i) && Executes(sv, w, log, k, i)
    ensures j == k
  {
    if j < k { ExecutedIncreases(sv.m, log, j, k); }
    if k < j { ExecutedIncreases(sv.m, log, k, j); }
  }

  lemma ExecutesInLonger(sv: Service, w: Clients, short: seq<Bytes>, log: seq<Bytes>, k: nat, i: nat)
    requires short <= log && Executes(sv, w, short, k, i)
    ensures Executes(sv, w, log, k, i) && ReplyAt(sv.m, log, k) == ReplyAt(sv.m, short, k)
  {
    assert short[..k] == log[..k];
    PrefixAgrees(sv.m, short, log, k);
  }

  /** Everything in the log that is a command is an operation. */
  ghost predicate IsOp(sv: Service, w: Clients, cmd: Bytes) {
    sv.m.ident(cmd).Some? ==> exists i :: 0 <= i < |w.ops| && w.ops[i] == cmd
  }

  ghost predicate AllOps(sv: Service, w: Clients, log: seq<Bytes>) {
    forall k {:trigger IsOp(sv, w, log[k])} :: 0 <= k < |log| ==> IsOp(sv, w, log[k])
  }

  /** Completed operations were executed in the log with the result the client saw. */
  ghost predicate ExplainedBy(sv: Service, w: Clients, log: seq<Bytes>, h: L.History, i: nat)
    requires i < |h|
  {
    L.Complete(h[i]) ==> exists k :: Executes(sv, w, log, k, i) && ReplyAt(sv.m, log, k) == h[i].result
  }

  /** An operation executed before a completed one was issued before that one returned. */
  ghost predicate Timely(sv: Service, w: Clients, log: seq<Bytes>, h: L.History, j: nat, k: nat, a: nat, b: nat)
    requires a < |h| && b < |h|
  {
    j < k && Executes(sv, w, log, j, a) && Executes(sv, w, log, k, b) ==> L.Allowed(h[a], h[b])
  }

  /** The log accounts for the history. */
  ghost predicate Accounts(sv: Service, w: Clients, log: seq<Bytes>, h: L.History) {
    && KvService(sv) && OpsOk(sv, w) && |h| == |w.ops| && AllOps(sv, w, log)
    && (forall i :: 0 <= i < |h| ==> h[i].call == sv.call(w.ops[i]))
    && (forall i {:trigger ExplainedBy(sv, w, log, h, i)} :: 0 <= i < |h| ==> ExplainedBy(sv, w, log, h, i))
    && (forall j, k, a, b {:trigger Timely(sv, w, log, h, j, k, a, b)} ::
          0 <= a < |h| && 0 <= b < |h| && 0 <= j && 0 <= k ==> Timely(sv, w, log, h, j, k, a, b))
  }

  // ---- the order of execution ------------------------------------------------------------------------------

  ghost function OpAt(sv: Service, w: Clients, log: seq<Bytes>, k: nat): (i: nat)
    requires k < |log| && AllOps(sv, w, log) && FreshAt(sv.m, log, k)
    ensures Executes(sv, w, log, k, i)
  {
    assert IsOp(sv, w, log[k]);
    var i :| 0 <= i < |w.ops| && w.ops[i] == log[k];
    i
  }

  /** Operations in the order the log executes them. */
  ghost function Order(sv: Service, w: Clients, log: seq<Bytes>): (s: seq<nat>)
    requires AllOps(sv, w, log)
    ensures var ks := Executed(sv.m, log, |log|);
            |s| == |ks| && forall x :: 0 <= x < |s| ==> Executes(sv, w, log, ks[x], s[x])
  {
    var ks := Executed(sv.m, log, |log|);
    ExecutedAreFresh(sv.m, log, |log|);
    seq(|ks|, x requires 0 <= x < |ks| => OpAt(sv, w, log, ks[x]))
  }

  lemma OrderDistinct(sv: Service, w: Clients, log: seq<Bytes>)
    requires OpsOk(sv, w) && AllOps(sv, w, log)
    ensures L.Distinct(Order(sv, w, log))
  {
    var ks, s := Executed(sv.m, log, |log|), Order(sv, w, log);
    forall x, y | 0 <= x < y < |s| ensures s[x] != s[y] {
      assert Executes(sv, w, log, ks[x], s[x]) && Executes(sv, w, log, ks[y], s[y]);
      if s[x] == s[y] { ExecutesOnce(sv, w, log, ks[x], ks[y], s[x]); }
    }
  }

  lemma OrderHolds(sv: Service, w: Clients, log: seq<Bytes>, k: nat, i: nat)
    requires OpsOk(sv, w) && AllOps(sv, w, log) && Executes(sv, w, log, k, i)
    ensures i in Order(sv, w, log)
  {
    var ks, s := Executed(sv.m, log, |log|), Order(sv, w, log);
    ExecutedAreFresh(sv.m, log, |log|);
    var x :| 0 <= x < |ks| && ks[x] == k;
    assert Executes(sv, w, log, ks[x], s[x]);
    SameOp(sv, w, log, k, i, s[x]);
  }

  lemma OrderCovers(sv: Service, w: Clients, log: seq<Bytes>, h: L.History)
    requires Accounts(sv, w, log, h)
    ensures L.In(h, Order(sv, w, log)) && L.Covers(h, L.Below(|h|), Order(sv, w, log))
  {
    var ks, s := Executed(sv.m, log, |log|), Order(sv, w, log);
    assert forall x :: 0 <= x < |s| ==> Executes(sv, w, log, ks[x], s[x]);
    OrderDistinct(sv, w, log);
    forall i | i in L.Below(|h|) && L.Complete(h[i]) ensures i in s {
      assert ExplainedBy(sv, w, log, h, i);
      var k :| Executes(sv, w, log, k, i) && ReplyAt(sv.m, log, k) == h[i].result;
      OrderHolds(sv, w, log, k, i);
    }
  }

  lemma SameOp(sv: Service, w: Clients, log: seq<Bytes>, k: nat, i: nat, j: nat)
    requires OpsOk(sv, w) && Executes(sv, w, log, k, i) && Executes(sv, w, log, k, j)
    ensures i == j
  {}

  lemma OrderRealTime(sv: Service, w: Clients, log: seq<Bytes>, h: L.History)
    requires Accounts(sv, w, log, h) && L.In(h, Order(sv, w, log))
    ensures L.RealTime(h, Order(sv, w, log))
  {
    var ks, s := Executed(sv.m, log, |log|), Order(sv, w, log);
    forall x, y | 0 <= x < y < |s| ensures L.Allowed(h[s[x]], h[s[y]]) {
      assert Timely(sv, w, log, h, ks[x], ks[y], s[x], s[y]);
    }
  }

  // ---- replaying ------------------------------------------------------------------------------------------------

  /** Executing position k is one call on the store. */
  lemma StepIsCall(sv: Service, w: Clients, log: seq<Bytes>, k: nat, i: nat)
    requires KvService(sv) && Executes(sv, w, log, k, i)
    ensures After(sv.m, log, k + 1).core == ApplyOp(After(sv.m, log, k).core, sv.call(w.ops[i])).0
    ensures ReplyAt(sv.m, log, k) == ApplyOp(After(sv.m, log, k).core, sv.call(w.ops[i])).1
  {
    assert RunsCall(sv, After(sv.m, log, k).core, log[k]);
  }

  lemma NotFreshKeeps(sv: Service, log: seq<Bytes>, k: nat)
    requires k < |log| && !FreshAt(sv.m, log, k)
    ensures After(sv.m, log, k + 1).core == After(sv.m, log, k).core
  {}

  lemma ResultMatches(sv: Service, w: Clients, log: seq<Bytes>, h: L.History, k: nat, i: nat)
    requires Accounts(sv, w, log, h) && Executes(sv, w, log, k, i)
    ensures i < |h| && (L.Complete(h[i]) ==> ReplyAt(sv.m, log, k) == h[i].result)
  {
    if L.Complete(h[i]) {
      assert ExplainedBy(sv, w, log, h, i);
      var j :| Executes(sv, w, log, j, i) && ReplyAt(sv.m, log, j) == h[i].result;
      ExecutesOnce(sv, w, log, j, k, i);
    }
  }

  lemma ReplayCons(h: L.History, kv: Store, s: seq<nat>, x: nat)
    requires L.In(h, s) && x < |s|
    requires L.Complete(h[s[x]]) ==> ApplyOp(kv, h[s[x]].call).1 == h[s[x]].result
    requires L.StoreReplays(h, ApplyOp(kv, h[s[x]].call).0, s[x + 1..])
    ensures L.StoreReplays(h, kv, s[x..])
  {
    assert s[x..][0] == s[x] && s[x..][1..] == s[x + 1..];
  }

  /** A chain of stores, each one call after the last, replays the order. */
  ghost predicate Chained(h: L.History, s: seq<nat>, st: seq<Store>, x: nat)
    requires L.In(h, s) && |st| == |s| + 1 && x < |s|
  {
    && st[x + 1] == ApplyOp(st[x], h[s[x]].call).0
    && (L.Complete(h[s[x]]) ==> ApplyOp(st[x], h[s[x]].call).1 == h[s[x]].result)
  }

  lemma {:induction false} ChainReplays(h: L.History, s: seq<nat>, st: seq<Store>, x: nat)
    requires L.In(h, s) && |st| == |s| + 1 && x <= |s|
    requires forall y {:trigger Chained(h, s, st, y)} :: x <= y < |s| ==> Chained(h, s, st, y)
    ensures L.StoreReplays(h, st[x], s[x..])
    decreases |s| - x
  {
    if x < |s| {
      assert Chained(h, s, st, x);
      ChainReplays(h, s, st, x + 1);
      ReplayCons(h, st[x], s, x);
    }
  }

  lemma {:induction false} CoreStill(sv: Service, log: seq<Bytes>, a: nat, b: nat)
    requires a <= b <= |log| && forall k :: a <= k < b ==> !FreshAt(sv.m, log, k)
    ensures After(sv.m, log, b).core == After(sv.m, log, a).core
    decreases b
  {
    if a < b {
      CoreStill(sv, log, a, b - 1);
      NotFreshKeeps(sv, log, b - 1);
    }
  }

  /** The position of execution x; the end of the log after the last one. */
  ghost function Position(sv: Service, log: seq<Bytes>, x: nat): (k: nat)
    requires x <= |Executed(sv.m, log, |log|)|
    ensures k <= |log|
  {
    var ks := Executed(sv.m, log, |log|);
    if x < |ks| then ks[x] else |log|
  }

  lemma Between(ks: seq<nat>, x: nat, k: nat)
    requires (forall a, b :: 0 <= a < b < |ks| ==> ks[a] < ks[b]) && x <= |ks|
    requires x > 0 ==> ks[x - 1] < k
    requires x < |ks| ==> k < ks[x]
    ensures k !in ks
  {
    forall y | 0 <= y < |ks| ensures ks[y] != k {
      if y < x { Ascending(ks, y, x - 1); } else { Ascending(ks, x, y); }
    }
  }

  lemma Ascending(ks: seq<nat>, a: nat, b: nat)
    requires (forall i, j :: 0 <= i < j < |ks| ==> ks[i] < ks[j]) && a <= b < |ks|
    ensures ks[a] <= ks[b]
  {}

  /** Nothing changes the store between one execution and the next. */
  lemma {:induction false} CoreAtNext(sv: Service, log: seq<Bytes>, x: nat)
    requires x <= |Executed(sv.m, log, |log|)|
    ensures After(sv.m, log, Position(sv, log, x)).core
            == After(sv.m, log, if x == 0 then 0 else Position(sv, log, x - 1) + 1).core
  {
    var ks := Executed(sv.m, log, |log|);
    var from, to := if x == 0 then 0 else ks[x - 1] + 1, if x < |ks| then ks[x] else |log|;
    NoneBetween(sv, log, ks, x, from, to);
    CoreStill(sv, log, from, to);
  }

  lemma NoneBetween(sv: Service, log: seq<Bytes>, ks: seq<nat>, x: nat, from: nat, to: nat)
    requires ks == Executed(sv.m, log, |log|) && x <= |ks|
    requires from == (if x == 0 then 0 else ks[x - 1] + 1) && to == if x < |ks| then ks[x] else |log|
    ensures from <= to <= |log| && forall k :: from <= k < to ==> !FreshAt(sv.m, log, k)
  {
    assert 0 < x < |ks| ==> ks[x - 1] < ks[x];
    ExecutedAreFresh(sv.m, log, |log|);
    forall k | from <= k < to && k < |log| ensures !FreshAt(sv.m, log, k) {
      Between(ks, x, k);
    }
  }

  ghost function Stores(sv: Service, log: seq<Bytes>): (st: seq<Store>)
    ensures var n := |Executed(sv.m, log, |log|)|;
            |st| == n + 1 && forall x :: 0 <= x <= n ==> st[x] == After(sv.m, log, Position(sv, log, x)).core
  {
    var n := |Executed(sv.m, log, |log|)|;
    seq(n + 1, x requires 0 <= x <= n => After(sv.m, log, Position(sv, log, x)).core)
  }

  lemma StoresChained(sv: Service, w: Clients, log: seq<Bytes>, h: L.History, x: nat)
    requires Accounts(sv, w, log, h) && L.In(h, Order(sv, w, log)) && x < |Order(sv, w, log)|
    ensures Chained(h, Order(sv, w, log), Stores(sv, log), x)
  {
    var k, i := Position(sv, log, x), Order(sv, w, log)[x];
    assert Executes(sv, w, log, k, i);
    StepIsCall(sv, w, log, k, i);
    ResultMatches(sv, w, log, h, k, i);
    CoreAtNext(sv, log, x + 1);
  }

  /** A log that accounts for a history linearizes it. */
  lemma AccountedIsLinearizable(sv: Service, w: Clients, log: seq<Bytes>, h: L.History)
    requires Accounts(sv, w, log, h)
    ensures L.Linearizable(h)
  {
    var s := Order(sv, w, log);
    OrderCovers(sv, w, log, h);
    OrderRealTime(sv, w, log, h);
    forall x | 0 <= x < |s| ensures Chained(h, s, Stores(sv, log), x) { StoresChained(sv, w, log, h, x); }
    ChainReplays(h, s, Stores(sv, log), 0);
    CoreAtNext(sv, log, 0);
    assert s[0..] == s;
    assert L.In(h, s) && L.Covers(h, L.Below(|h|), s) && L.RealTime(h, s) && L.StoreReplays(h, map[], s);
  }

  // ---- the cluster's log accounts for what its clients see ------------------------------------------------------

  /** Some node applied exactly this at some time. */
  ghost predicate AppliedSomewhere(run: seq<Snapshot>, log: seq<Bytes>) {
    log == [] || exists t: nat, n :: t < |run| && n in run[t].nodes && log == Applied(run, t, n)
  }

  /** All acknowledgements answer from prefixes of one applied log. */
  lemma {:induction false} CommonLog(sv: Service, cl: C.Cluster, run: seq<Snapshot>, acts: seq<C.Action>, w: Clients,
                                     ids: set<nat>)
    returns (log: seq<Bytes>)
    requires Serves(sv, cl, run, acts, w) && ids <= w.acks.Keys
    ensures AppliedSomewhere(run, log)
    ensures forall i :: i in ids ==> AckOk(sv, w, run, i) && Applied(run, w.acks[i].time, w.acks[i].node) <= log
    decreases ids
  {
    if ids == {} {
      log := [];
    } else {
      var j :| j in ids;
      var rest := CommonLog(sv, cl, run, acts, w, ids - {j});
      assert AckOk(sv, w, run, j);
      var mine := Applied(run, w.acks[j].time, w.acks[j].node);
      if rest != [] {
        var t: nat, n :| t < |run| && n in run[t].nodes && rest == Applied(run, t, n);
        AppliedComparable(cl, run, acts, w.acks[j].time, w.acks[j].node, t, n);
      }
      log := if mine <= rest then rest else mine;
      forall i | i in ids ensures AckOk(sv, w, run, i) && Applied(run, w.acks[i].time, w.acks[i].node) <= log {
        if i != j { assert i in ids - {j}; }
      }
      assert mine == Applied(run, w.acks[j].time, w.acks[j].node);
    }
  }

  lemma AppliedAllOps(sv: Service, cl: C.Cluster, run: seq<Snapshot>, acts: seq<C.Action>, w: Clients, log: seq<Bytes>)
    requires Serves(sv, cl, run, acts, w) && AppliedSomewhere(run, log)
    ensures AllOps(sv, w, log)
  {
    if log != [] {
      var t: nat, n :| t < |run| && n in run[t].nodes && log == Applied(run, t, n);
      forall k | 0 <= k < |log| ensures IsOp(sv, w, log[k]) {
        if sv.m.ident(log[k]).Some? {
          var i, _ := AppliedIsOp(sv, cl, run, acts, w, t, n, k);
        }
      }
    }
  }

  lemma CompletedExplained(sv: Service, cl: C.Cluster, run: seq<Snapshot>, acts: seq<C.Action>, w: Clients,
                           log: seq<Bytes>, i: nat)
    requires Serves(sv, cl, run, acts, w) && i < |w.ops|
    requires i in w.acks ==> AckOk(sv, w, run, i) && Applied(run, w.acks[i].time, w.acks[i].node) <= log
    ensures ExplainedBy(sv, w, log, HistoryOf(sv, cl, run, acts, w), i)
  {
    if i in w.acks {
      var k := AckedWasExecuted(sv, cl, run, acts, w, i);
      ExecutesInLonger(sv, w, Applied(run, w.acks[i].time, w.acks[i].node), log, k, i);
    }
  }

  lemma ExecutedInTime(sv: Service, cl: C.Cluster, run: seq<Snapshot>, acts: seq<C.Action>, w: Clients, log: seq<Bytes>,
                       j: nat, k: nat, a: nat, b: nat)
    requires Serves(sv, cl, run, acts, w) && a < |w.ops| && b < |w.ops|
    requires b in w.acks ==> AckOk(sv, w, run, b) && Applied(run, w.acks[b].time, w.acks[b].node) <= log
    ensures Timely(sv, w, log, HistoryOf(sv, cl, run, acts, w), j, k, a, b)
  {
    if b in w.acks && j < k && Executes(sv, w, log, j, a) && Executes(sv, w, log, k, b) {
      var ack := w.acks[b];
      var mine := Applied(run, ack.time, ack.node);
      var k' := AckedWasExecuted(sv, cl, run, acts, w, b);
      ExecutesInLonger(sv, w, mine, log, k', b);
      ExecutesOnce(sv, w, log, k, k', b);
      assert mine[j] == log[j];
      var a', _ := AppliedIsOp(sv, cl, run, acts, w, ack.time, ack.node, j);
      assert a' == a;
    }
  }

  /** Every run of the cluster with disciplined clients is linearizable as the checker defines it: the
      acknowledged results, in real time, are those of one sequential key-value store. */
  lemma ServiceLinearizable(sv: Service, cl: C.Cluster, run: seq<Snapshot>, acts: seq<C.Action>, w: Clients)
    requires Serves(sv, cl, run, acts, w)
    ensures L.WellTimed(HistoryOf(sv, cl, run, acts, w)) && L.Linearizable(HistoryOf(sv, cl, run, acts, w))
  {
    var h := HistoryOf(sv, cl, run, acts, w);
    var log := CommonLog(sv, cl, run, acts, w, w.acks.Keys);
    AppliedAllOps(sv, cl, run, acts, w, log);
    forall i | 0 <= i < |h| ensures ExplainedBy(sv, w, log, h, i) {
      CompletedExplained(sv, cl, run, acts, w, log, i);
    }
    forall j: nat, k: nat, a, b | 0 <= a < |h| && 0 <= b < |h| ensures Timely(sv, w, log, h, j, k, a, b) {
      ExecutedInTime(sv, cl, run, acts, w, log, j, k, a, b);
    }
    AccountedIsLinearizable(sv, w, log, h);
    forall i | 0 <= i < |h| && L.Complete(h[i]) ensures h[i].invoke <= h[i].ret {
      var _ := AckedWasExecuted(sv, cl, run, acts, w, i);
    }
  }

  lemma NotYetApplied(sv: Service, cl: C.Cluster, run: seq<Snapshot>, acts: seq<C.Action>, w: Clients, j: nat,
                      t: nat, n: NodeId)
    requires Serves(sv, cl, run, acts, w) && t < |run| && n in run[t].nodes && j < |w.ops| && t <= w.invoke[j]
    ensures w.ops[j] !in Applied(run, t, n)
  {
    var log := Applied(run, t, n);
    forall y | 0 <= y < |log| ensures log[y] != w.ops[j] {
      if Claims(sv, w, log[y]) {
        var i, _ := AppliedIsOp(sv, cl, run, acts, w, t, n, y);
        assert w.invoke[i] < t;
      }
    }
  }

  /** An operation issued after another was acknowledged takes effect after it: wherever the later one
      has been applied, the earlier one was executed before. So clients read their own writes, and those
      they have been told of. */
  lemma LaterTakesEffectLater(sv: Service, cl: C.Cluster, run: seq<Snapshot>, acts: seq<C.Action>, w: Clients,
                              i: nat, j: nat, t: nat, n: NodeId, y: nat) returns (x: nat)
    requires Serves(sv, cl, run, acts, w) && i in w.acks && j < |w.ops| && w.acks[i].time <= w.invoke[j]
    requires t < |run| && n in run[t].nodes && y < |Applied(run, t, n)| && Applied(run, t, n)[y] == w.ops[j]
    ensures x < y && Executes(sv, w, Applied(run, t, n), x, i)
  {
    assert AckOk(sv, w, run, i);
    var a := w.acks[i];
    var mine, log := Applied(run, a.time, a.node), Applied(run, t, n);
    x := AckedWasExecuted(sv, cl, run, acts, w, i);
    AppliedComparable(cl, run, acts, a.time, a.node, t, n);
    assert y < |mine| ==> mine[y] == log[y];
    NotYetApplied(sv, cl, run, acts, w, j, a.time, a.node);
    ExecutesInLonger(sv, w, mine, log, x, i);
  }

  // ---- the key-value store is such a service -----------------------------------------------------------------------

  function CallOf(cmd: Bytes): Call {
    var c := KvStore.Decode(cmd);
    if c.Some? then c.value.call else Call(Get, [], [], [])
  }

  function KeyValue(): Service { Service(KvStore.KvMachine(), CallOf, ClientService.Prefix) }

  lemma KvStoreServes()
    ensures KvService(KeyValue())
  {
    var sv := KeyValue();
    forall kv, cmd ensures RunsCall(sv, kv, cmd) {
      if sv.m.ident(cmd).Some? { ClientService.PrefixIsIdent(cmd); }
    }
  }
}
