/** Client histories: what it means for one to be linearizable, and why keys can be judged apart. */
module Linearizability {
  import opened Wire
  import opened KvOps

  /** One client operation; `ret` is negative while it is pending. */
  datatype ClientOp = ClientOp(call: Call, invoke: int, ret: int, result: Bytes)

  type History = seq<ClientOp>

  predicate Complete(o: ClientOp) { o.ret >= 0 }

  /** Completed operations respond no earlier than they were invoked. */
  ghost predicate WellTimed(h: History) {
    forall i :: 0 <= i < |h| && Complete(h[i]) ==> h[i].invoke <= h[i].ret
  }

  // ---- orders -------------------------------------------------------------------------------------

  ghost predicate In(h: History, s: seq<nat>) { forall x :: 0 <= x < |s| ==> s[x] < |h| }

  ghost predicate Distinct(s: seq<nat>) { forall x, y :: 0 <= x < y < |s| ==> s[x] != s[y] }

  /** A response before an invocation forces that order. */
  predicate Allowed(a: ClientOp, b: ClientOp) { !(Complete(b) && b.ret < a.invoke) }

  ghost predicate RealTime(h: History, s: seq<nat>)
    requires In(h, s)
  {
    forall x, y {:trigger Allowed(h[s[x]], h[s[y]])} :: 0 <= x < y < |s| ==> Allowed(h[s[x]], h[s[y]])
  }

  /** Each operation of `ids` at most once, each completed one exactly once. */
  ghost predicate Covers(h: History, ids: set<nat>, s: seq<nat>)
    requires In(h, s)
  {
    && Distinct(s)
    && (forall x :: 0 <= x < |s| ==> s[x] in ids)
    && (forall i :: i in ids && i < |h| && Complete(h[i]) ==> i in s)
  }

  /** Replayed on one register, every completed operation gets the result the client saw. */
  predicate Replays(h: History, r: Register, s: seq<nat>)
    requires In(h, s)
    decreases s
  {
    if s == [] then true
    else
      var (r', out) := ModelApply(r, h[s[0]].call);
      (Complete(h[s[0]]) ==> out == h[s[0]].result) && Replays(h, r', s[1..])
  }

  /** The same on the whole store. */
  predicate StoreReplays(h: History, kv: Store, s: seq<nat>)
    requires In(h, s)
    decreases s
  {
    if s == [] then true
    else
      var (kv', out) := ApplyOp(kv, h[s[0]].call);
      (Complete(h[s[0]]) ==> out == h[s[0]].result) && StoreReplays(h, kv', s[1..])
  }

  function Below(n: nat): (ids: set<nat>)
    ensures forall i: nat :: i in ids <==> i < n
  {
    if n == 0 then {} else Below(n - 1) + {n - 1}
  }

  function IdsOf(h: History, k: Bytes): set<nat> { set i | 0 <= i < |h| && h[i].call.key == k }

  /** Some order of all completed and any pending operations respects real time and explains every
      result, starting from the empty store. */
  ghost predicate Linearizable(h: History) {
    exists s :: In(h, s) && Covers(h, Below(|h|), s) && RealTime(h, s) && StoreReplays(h, map[], s)
  }

  ghost predicate KeyLinearizable(h: History, k: Bytes) {
    exists s :: In(h, s) && Covers(h, IdsOf(h, k), s) && RealTime(h, s) && Replays(h, Unset, s)
  }

  // ---- one key of an order ----------------------------------------------------------------------------

  function Only(h: History, k: Bytes, s: seq<nat>): (t: seq<nat>)
    requires In(h, s)
    ensures In(h, t)
    ensures forall i :: i in t <==> i in s && h[i].call.key == k
  {
    if s == [] then []
    else
      assert forall i :: i in s <==> i == s[0] || i in s[1..];
      (if h[s[0]].call.key == k then [s[0]] else []) + Only(h, k, s[1..])
  }

  lemma {:induction false} OnlyDistinct(h: History, k: Bytes, s: seq<nat>)
    requires In(h, s) && Distinct(s)
    ensures Distinct(Only(h, k, s))
  {
    if s != [] { OnlyDistinct(h, k, s[1..]); }
  }

  lemma {:induction false} OnlyRealTime(h: History, k: Bytes, s: seq<nat>)
    requires In(h, s) && RealTime(h, s)
    ensures RealTime(h, Only(h, k, s))
  {
    if s != [] {
      TailRealTime(h, s);
      OnlyRealTime(h, k, s[1..]);
      var t := Only(h, k, s[1..]);
      forall y | 0 <= y < |t| ensures Allowed(h[s[0]], h[t[y]]) {
        assert t[y] in t && t[y] in s[1..];
        var z :| 0 <= z < |s[1..]| && s[1..][z] == t[y];
        assert Allowed(h[s[0]], h[s[z + 1]]);
      }
      if h[s[0]].call.key == k { ConsRealTime(h, s[0], t); }
    }
  }

  lemma TailRealTime(h: History, s: seq<nat>)
    requires In(h, s) && RealTime(h, s) && s != []
    ensures RealTime(h, s[1..])
  {
    var t := s[1..];
    forall x, y | 0 <= x < y < |t| ensures Allowed(h[t[x]], h[t[y]]) {
      assert Allowed(h[s[x + 1]], h[s[y + 1]]);
    }
  }

  lemma ConsRealTime(h: History, i: nat, t: seq<nat>)
    requires In(h, t) && i < |h| && RealTime(h, t)
    requires forall y :: 0 <= y < |t| ==> Allowed(h[i], h[t[y]])
    ensures RealTime(h, [i] + t)
  {
    var s := [i] + t;
    forall x, y | 0 <= x < y < |s| ensures Allowed(h[s[x]], h[s[y]]) {
      if x > 0 { assert Allowed(h[t[x - 1]], h[t[y - 1]]); }
    }
  }

  // ---- replaying the store is replaying every key ------------------------------------------------------

  ghost predicate KeyReplays(h: History, kv: Store, s: seq<nat>, k: Bytes)
    requires In(h, s)
  {
    Replays(h, RegisterOf(kv, k), Only(h, k, s))
  }

  /** What one operation demands of key k. */
  predicate Explained(h: History, kv: Store, i: nat, k: Bytes)
    requires i < |h|
  {
    h[i].call.key == k && Complete(h[i]) ==> ApplyOp(kv, h[i].call).1 == h[i].result
  }

  lemma StepReplays(h: History, kv: Store, s: seq<nat>, k: Bytes)
    requires In(h, s) && s != []
    ensures KeyReplays(h, kv, s, k)
            <==> Explained(h, kv, s[0], k) && KeyReplays(h, ApplyOp(kv, h[s[0]].call).0, s[1..], k)
  {
    ApplyOpProjects(kv, h[s[0]].call, k);
    var t := Only(h, k, s[1..]);
    if h[s[0]].call.key == k {
      assert Only(h, k, s) == [s[0]] + t && ([s[0]] + t)[1..] == t;
    } else {
      assert Only(h, k, s) == t;
    }
  }

  lemma {:induction false} StoreReplaysPerKey(h: History, kv: Store, s: seq<nat>)
    requires In(h, s)
    ensures StoreReplays(h, kv, s) <==> forall k :: KeyReplays(h, kv, s, k)
    decreases s
  {
    if s != [] {
      var kv' := ApplyOp(kv, h[s[0]].call).0;
      StoreReplaysPerKey(h, kv', s[1..]);
      forall k ensures KeyReplays(h, kv, s, k) <==> Explained(h, kv, s[0], k) && KeyReplays(h, kv', s[1..], k) {
        StepReplays(h, kv, s, k);
      }
      assert KeyReplays(h, kv, s, h[s[0]].call.key) ==> Explained(h, kv, s[0], h[s[0]].call.key);
    }
  }

  lemma WholeGivesKey(h: History, k: Bytes)
    requires Linearizable(h)
    ensures KeyLinearizable(h, k)
  {
    var s :| In(h, s) && Covers(h, Below(|h|), s) && RealTime(h, s) && StoreReplays(h, map[], s);
    StoreReplaysPerKey(h, map[], s);
    assert KeyReplays(h, map[], s, k);
    OnlyDistinct(h, k, s);
    OnlyRealTime(h, k, s);
    var t := Only(h, k, s);
    assert Covers(h, IdsOf(h, k), t);
  }

  // ---- linearization points -------------------------------------------------------------------------------

  /** An operation with the instant at which it takes effect. */
  datatype Stamp = Stamp(id: nat, at: int)

  function Ids(p: seq<Stamp>): (s: seq<nat>)
    ensures |s| == |p| && forall x :: 0 <= x < |s| ==> s[x] == p[x].id
  {
    seq(|p|, x requires 0 <= x < |p| => p[x].id)
  }

  /** Between invocation and response. */
  predicate Inside(o: ClientOp, at: int) { o.invoke <= at && (Complete(o) ==> at <= o.ret) }

  ghost predicate Stamped(h: History, p: seq<Stamp>) {
    && (forall x :: 0 <= x < |p| ==> p[x].id < |h| && Inside(h[p[x].id], p[x].at))
    && (forall x, y :: 0 <= x < y < |p| ==> p[x].at <= p[y].at)
  }

  /** Points in order imply real-time order. */
  lemma StampedRealTime(h: History, p: seq<Stamp>)
    requires Stamped(h, p)
    ensures In(h, Ids(p)) && RealTime(h, Ids(p))
  {
    var s := Ids(p);
    forall x, y | 0 <= x < y < |s| ensures Allowed(h[s[x]], h[s[y]]) {
      assert p[x].at <= p[y].at && Inside(h[p[x].id], p[x].at) && Inside(h[p[y].id], p[y].at);
    }
  }

  /** Conversely, real-time order leaves room for points: each operation takes effect at the latest
      invocation up to it. */
  lemma {:induction false} Stamping(h: History, s: seq<nat>) returns (p: seq<Stamp>)
    requires WellTimed(h) && In(h, s) && RealTime(h, s)
    ensures Ids(p) == s && Stamped(h, p)
    ensures p != [] ==> exists x :: 0 <= x < |s| && h[s[x]].invoke == p[|p| - 1].at
  {
    if s == [] {
      p := [];
    } else {
      var n := |s| - 1;
      FrontRealTime(h, s);
      var q := Stamping(h, s[..n]);
      var o := h[s[n]];
      var at := if q == [] || q[n - 1].at <= o.invoke then o.invoke else q[n - 1].at;
      p := q + [Stamp(s[n], at)];
      if at != o.invoke {
        var x :| 0 <= x < n && h[s[..n][x]].invoke == q[n - 1].at;
        assert Allowed(h[s[x]], h[s[n]]);
        assert h[s[x]].invoke == at;
      } else {
        assert h[s[n]].invoke == at;
      }
      assert Inside(o, at);
    }
  }

  lemma FrontRealTime(h: History, s: seq<nat>)
    requires In(h, s) && RealTime(h, s) && s != []
    ensures RealTime(h, s[..|s| - 1])
  {
    var t := s[..|s| - 1];
    forall x, y | 0 <= x < y < |t| ensures Allowed(h[t[x]], h[t[y]]) {
      assert Allowed(h[s[x]], h[s[y]]);
    }
  }
}
