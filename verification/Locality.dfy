/** Locality: a history is linearizable exactly when it is linearizable key by key. */
module Locality {
  import opened Wire
  import opened KvOps
  import opened Linearizability

  // ---- merging two stamped orders ---------------------------------------------------------------

  function Merge(a: seq<Stamp>, b: seq<Stamp>): (m: seq<Stamp>)
    ensures |m| == |a| + |b|
  {
    if a == [] then b
    else if b == [] then a
    else if a[0].at <= b[0].at then [a[0]] + Merge(a[1..], b)
    else [b[0]] + Merge(a, b[1..])
  }

  lemma {:induction false} MergeMembers(a: seq<Stamp>, b: seq<Stamp>, x: Stamp)
    ensures x in Merge(a, b) <==> x in a || x in b
  {
    if a != [] && b != [] {
      if a[0].at <= b[0].at { MergeMembers(a[1..], b, x); } else { MergeMembers(a, b[1..], x); }
    }
  }

  lemma TailStamped(h: History, p: seq<Stamp>)
    requires Stamped(h, p) && p != []
    ensures Stamped(h, p[1..])
  {}

  lemma {:induction false} MergeStamped(h: History, a: seq<Stamp>, b: seq<Stamp>)
    requires Stamped(h, a) && Stamped(h, b)
    ensures Stamped(h, Merge(a, b))
  {
    if a != [] && b != [] {
      if a[0].at <= b[0].at {
        TailStamped(h, a);
        MergeStamped(h, a[1..], b);
        ConsStamped(h, a[0], a[1..], b);
      } else {
        TailStamped(h, b);
        MergeStamped(h, a, b[1..]);
        ConsStamped(h, b[0], a, b[1..]);
      }
    }
  }

  lemma ConsStamped(h: History, x: Stamp, a: seq<Stamp>, b: seq<Stamp>)
    requires Stamped(h, Merge(a, b)) && x.id < |h| && Inside(h[x.id], x.at)
    requires forall y :: 0 <= y < |a| ==> x.at <= a[y].at
    requires forall y :: 0 <= y < |b| ==> x.at <= b[y].at
    ensures Stamped(h, [x] + Merge(a, b))
  {
    var m := Merge(a, b);
    forall y | 0 <= y < |m| ensures x.at <= m[y].at {
      MergeMembers(a, b, m[y]);
    }
  }

  // ---- one key of a merge ---------------------------------------------------------------------------

  ghost predicate KeysIn(h: History, p: seq<Stamp>, ks: set<Bytes>) {
    forall x :: 0 <= x < |p| ==> p[x].id < |h| && h[p[x].id].call.key in ks
  }

  /** The part of a stamped order on key k. */
  function OnlyAt(h: History, k: Bytes, p: seq<Stamp>): seq<Stamp>
    requires forall x :: 0 <= x < |p| ==> p[x].id < |h|
  {
    if p == [] then []
    else (if h[p[0].id].call.key == k then [p[0]] else []) + OnlyAt(h, k, p[1..])
  }

  lemma {:induction false} OnlyIds(h: History, k: Bytes, p: seq<Stamp>)
    requires forall x :: 0 <= x < |p| ==> p[x].id < |h|
    ensures In(h, Ids(p)) && Only(h, k, Ids(p)) == Ids(OnlyAt(h, k, p))
  {
    if p != [] {
      assert Ids(p)[1..] == Ids(p[1..]);
      OnlyIds(h, k, p[1..]);
    }
  }

  lemma {:induction false} OnlyNone(h: History, k: Bytes, p: seq<Stamp>, ks: set<Bytes>)
    requires KeysIn(h, p, ks) && k !in ks
    ensures OnlyAt(h, k, p) == []
  {
    if p != [] { OnlyNone(h, k, p[1..], ks); }
  }

  lemma {:induction false} OnlyEvery(h: History, k: Bytes, p: seq<Stamp>)
    requires KeysIn(h, p, {k})
    ensures OnlyAt(h, k, p) == p
  {
    if p != [] { OnlyEvery(h, k, p[1..]); }
  }

  /** Merging in another key's operations leaves each key's own order alone. */
  lemma {:induction false} OnlyMerge(h: History, a: seq<Stamp>, b: seq<Stamp>, ks: set<Bytes>, j: Bytes, k: Bytes)
    requires KeysIn(h, a, ks) && KeysIn(h, b, {j}) && j !in ks
    ensures forall x :: 0 <= x < |Merge(a, b)| ==> Merge(a, b)[x].id < |h|
    ensures OnlyAt(h, k, Merge(a, b)) == if k == j then b else OnlyAt(h, k, a)
  {
    if a == [] {
      if k == j { OnlyEvery(h, k, b); } else { OnlyNone(h, k, b, {j}); }
    } else if b == [] {
      if k == j { OnlyNone(h, k, a, ks); }
    } else if a[0].at <= b[0].at {
      OnlyMerge(h, a[1..], b, ks, j, k);
      ConsOnly(h, k, a[0], Merge(a[1..], b));
    } else {
      OnlyMerge(h, a, b[1..], ks, j, k);
      ConsOnly(h, k, b[0], Merge(a, b[1..]));
    }
  }

  lemma ConsOnly(h: History, k: Bytes, x: Stamp, p: seq<Stamp>)
    requires x.id < |h| && forall y :: 0 <= y < |p| ==> p[y].id < |h|
    ensures OnlyAt(h, k, [x] + p) == (if h[x.id].call.key == k then [x] else []) + OnlyAt(h, k, p)
  {
    assert ([x] + p)[1..] == p;
  }

  // ---- all keys together ----------------------------------------------------------------------------------

  ghost predicate Taken(h: History, p: seq<Stamp>, i: nat) { exists x :: 0 <= x < |p| && p[x].id == i }

  ghost predicate Once(p: seq<Stamp>) { forall x, y :: 0 <= x < y < |p| ==> p[x].id != p[y].id }

  /** One stamped order serves all the keys of ks. */
  ghost predicate Serves(h: History, ks: set<Bytes>, p: seq<Stamp>) {
    && Stamped(h, p) && KeysIn(h, p, ks) && Once(p)
    && (forall i: nat {:trigger Taken(h, p, i)} ::
          i < |h| && h[i].call.key in ks && Complete(h[i]) ==> Taken(h, p, i))
    && (forall k {:trigger OnlyAt(h, k, p)} :: In(h, Ids(OnlyAt(h, k, p))) && Replays(h, Unset, Ids(OnlyAt(h, k, p))))
  }

  lemma KeyServes(h: History, k: Bytes) returns (p: seq<Stamp>)
    requires WellTimed(h) && KeyLinearizable(h, k)
    ensures Serves(h, {k}, p)
  {
    var s :| In(h, s) && Covers(h, IdsOf(h, k), s) && RealTime(h, s) && Replays(h, Unset, s);
    p := Stamping(h, s);
    forall x | 0 <= x < |p| ensures p[x].id < |h| && h[p[x].id].call.key in {k} {
      assert s[x] in IdsOf(h, k);
    }
    assert Once(p) by {
      forall x, y | 0 <= x < y < |p| ensures p[x].id != p[y].id {
        assert s[x] != s[y];
      }
    }
    forall i: nat | i < |h| && h[i].call.key in {k} && Complete(h[i]) ensures Taken(h, p, i) {
      assert i in IdsOf(h, k) && i in s;
      var x :| 0 <= x < |s| && s[x] == i;
      assert p[x].id == i;
    }
    forall j ensures In(h, Ids(OnlyAt(h, j, p))) && Replays(h, Unset, Ids(OnlyAt(h, j, p))) {
      if j == k { OnlyEvery(h, k, p); } else { OnlyNone(h, j, p, {k}); }
    }
  }

  lemma MergeKeys(h: History, a: seq<Stamp>, b: seq<Stamp>, ks: set<Bytes>, j: Bytes)
    requires KeysIn(h, a, ks) && KeysIn(h, b, {j})
    ensures KeysIn(h, Merge(a, b), ks + {j})
  {
    var m := Merge(a, b);
    forall x | 0 <= x < |m| ensures m[x].id < |h| && h[m[x].id].call.key in ks + {j} {
      MergeMembers(a, b, m[x]);
    }
  }

  lemma {:induction false} MergeOnce(h: History, a: seq<Stamp>, b: seq<Stamp>, ks: set<Bytes>, j: Bytes)
    requires KeysIn(h, a, ks) && KeysIn(h, b, {j}) && j !in ks && Once(a) && Once(b)
    ensures Once(Merge(a, b))
  {
    if a != [] && b != [] {
      if a[0].at <= b[0].at {
        MergeOnce(h, a[1..], b, ks, j);
        NewInMerge(h, a[1..], b, ks, j, a[0]);
        OnceCons(a[0], Merge(a[1..], b));
      } else {
        MergeOnce(h, a, b[1..], ks, j);
        NewInMerge(h, a, b[1..], ks, j, b[0]);
        OnceCons(b[0], Merge(a, b[1..]));
      }
    }
  }

  lemma OnceCons(x: Stamp, p: seq<Stamp>)
    requires Once(p) && forall y :: 0 <= y < |p| ==> p[y].id != x.id
    ensures Once([x] + p)
  {}

  lemma {:induction false} NewInMerge(h: History, a: seq<Stamp>, b: seq<Stamp>, ks: set<Bytes>, j: Bytes, x: Stamp)
    requires KeysIn(h, a, ks) && KeysIn(h, b, {j}) && j !in ks && x.id < |h|
    requires h[x.id].call.key != j || forall y :: 0 <= y < |b| ==> b[y].id != x.id
    requires h[x.id].call.key !in ks || forall y :: 0 <= y < |a| ==> a[y].id != x.id
    ensures forall y :: 0 <= y < |Merge(a, b)| ==> Merge(a, b)[y].id != x.id
  {
    forall y | 0 <= y < |Merge(a, b)| ensures Merge(a, b)[y].id != x.id {
      MergeMembers(a, b, Merge(a, b)[y]);
    }
  }

  lemma MergeTaken(h: History, a: seq<Stamp>, b: seq<Stamp>, i: nat)
    requires Taken(h, a, i) || Taken(h, b, i)
    ensures Taken(h, Merge(a, b), i)
  {
    var s := if Taken(h, a, i) then a else b;
    var x :| 0 <= x < |s| && s[x].id == i;
    MergeMembers(a, b, s[x]);
    assert s[x] in Merge(a, b);
  }

  lemma MergeServes(h: History, ks: set<Bytes>, j: Bytes, a: seq<Stamp>, b: seq<Stamp>)
    requires j !in ks && Serves(h, ks, a) && Serves(h, {j}, b)
    ensures Serves(h, ks + {j}, Merge(a, b))
  {
    MergeStamped(h, a, b);
    MergeKeys(h, a, b, ks, j);
    MergeOnce(h, a, b, ks, j);
    var m := Merge(a, b);
    forall i: nat | i < |h| && h[i].call.key in ks + {j} && Complete(h[i]) ensures Taken(h, m, i) {
      assert h[i].call.key in ks ==> Taken(h, a, i);
      assert h[i].call.key == j ==> Taken(h, b, i);
      MergeTaken(h, a, b, i);
    }
    forall k ensures In(h, Ids(OnlyAt(h, k, m))) && Replays(h, Unset, Ids(OnlyAt(h, k, m))) {
      OnlyMerge(h, a, b, ks, j, k);
      if k == j {
        OnlyEvery(h, k, b);
        assert OnlyAt(h, k, b) == b;
      } else {
        assert Replays(h, Unset, Ids(OnlyAt(h, k, a)));
      }
    }
  }

  function KeysOf(h: History): set<Bytes> { set i | 0 <= i < |h| :: h[i].call.key }

  lemma {:induction false} ServesAll(h: History, ks: set<Bytes>) returns (p: seq<Stamp>)
    requires WellTimed(h) && forall k :: k in ks ==> KeyLinearizable(h, k)
    ensures Serves(h, ks, p)
    decreases ks
  {
    if ks == {} {
      p := [];
    } else {
      var j :| j in ks;
      var a := ServesAll(h, ks - {j});
      var b := KeyServes(h, j);
      MergeServes(h, ks - {j}, j, a, b);
      assert ks - {j} + {j} == ks;
      p := Merge(a, b);
    }
  }

  /** Keys are independent: judging each key's operations alone decides the whole history. */
  lemma LinearizablePerKey(h: History)
    requires WellTimed(h)
    ensures Linearizable(h) <==> forall k :: k in KeysOf(h) ==> KeyLinearizable(h, k)
  {
    if Linearizable(h) {
      forall k | k in KeysOf(h) ensures KeyLinearizable(h, k) { WholeGivesKey(h, k); }
    }
    if forall k :: k in KeysOf(h) ==> KeyLinearizable(h, k) {
      var p := ServesAll(h, KeysOf(h));
      ServedLinearizable(h, p);
    }
  }

  lemma ServedLinearizable(h: History, p: seq<Stamp>)
    requires Serves(h, KeysOf(h), p)
    ensures Linearizable(h)
  {
    StampedRealTime(h, p);
    var s := Ids(p);
    forall i: nat | i in Below(|h|) && Complete(h[i]) ensures i in s {
      assert h[i].call.key in KeysOf(h);
      assert Taken(h, p, i);
      var x :| 0 <= x < |p| && p[x].id == i;
      assert s[x] == i;
    }
    forall k ensures KeyReplays(h, map[], s, k) {
      OnlyIds(h, k, p);
      assert Replays(h, Unset, Ids(OnlyAt(h, k, p)));
    }
    StoreReplaysPerKey(h, map[], s);
    assert Distinct(s);
  }
}
