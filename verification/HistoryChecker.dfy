/** The history checker: a memoised depth-first search per key, sound and complete. */
module HistoryChecker {
  import opened Common
  import opened Wire
  import opened KvOps
  import opened Linearizability
  import opened Locality
  import opened BitString

  // ---- the search without a memo --------------------------------------------------------------------

  ghost predicate Settled(h: History, ids: set<nat>, done: set<nat>) {
    forall i :: i in ids && i < |h| && Complete(h[i]) ==> i in done
  }

  /** Invoked no later than the earliest response still outstanding. */
  ghost predicate Eligible(h: History, ids: set<nat>, done: set<nat>, i: nat)
    requires i < |h|
  {
    forall j :: j in ids - done && j < |h| && Complete(h[j]) ==> h[i].invoke <= h[j].ret
  }

  predicate Fits(h: History, r: Register, i: nat)
    requires i < |h|
  {
    Complete(h[i]) ==> ModelApply(r, h[i].call).1 == h[i].result
  }

  /** Operation i may come next. */
  ghost predicate MayTake(h: History, ids: set<nat>, done: set<nat>, r: Register, i: nat) {
    i in ids - done && i < |h| && Eligible(h, ids, done, i) && Fits(h, r, i)
  }

  /** The operations not yet done can be ordered after those that are. */
  ghost predicate CanFinish(h: History, ids: set<nat>, done: set<nat>, r: Register)
    decreases ids - done
  {
    || Settled(h, ids, done)
    || exists i: nat {:trigger MayTake(h, ids, done, r, i)} ::
         && MayTake(h, ids, done, r, i)
         && assert ids - (done + {i}) < ids - done;
            CanFinish(h, ids, done + {i}, ModelApply(r, h[i].call).0)
  }

  // ---- it finds exactly the linearizations ---------------------------------------------------------------

  /** s orders what is left after `done`, in real time and with the results the clients saw. */
  ghost predicate Finishes(h: History, ids: set<nat>, done: set<nat>, r: Register, s: seq<nat>) {
    && In(h, s) && Covers(h, ids - done, s) && RealTime(h, s) && Replays(h, r, s)
  }

  ghost predicate Timely(h: History, ids: set<nat>, done: set<nat>) {
    forall i :: i in ids - done && i < |h| && Complete(h[i]) ==> h[i].invoke <= h[i].ret
  }

  lemma TakeFirst(h: History, ids: set<nat>, done: set<nat>, r: Register, i: nat, s: seq<nat>)
    requires MayTake(h, ids, done, r, i)
    requires Finishes(h, ids, done + {i}, ModelApply(r, h[i].call).0, s)
    ensures Finishes(h, ids, done, r, [i] + s)
  {
    forall y | 0 <= y < |s| ensures Allowed(h[i], h[s[y]]) {
      assert s[y] in ids - (done + {i});
    }
    ConsRealTime(h, i, s);
    var t := [i] + s;
    assert t[1..] == s;
    assert forall y :: 0 <= y < |s| ==> s[y] in ids - (done + {i});
    forall j | j in ids - done && j < |h| && Complete(h[j]) ensures j in t {
      if j != i { assert j in ids - (done + {i}) && j in s; }
    }
  }

  lemma {:induction false} SearchSound(h: History, ids: set<nat>, done: set<nat>, r: Register) returns (s: seq<nat>)
    requires CanFinish(h, ids, done, r)
    ensures Finishes(h, ids, done, r, s) && Timely(h, ids, done)
    decreases ids - done
  {
    if Settled(h, ids, done) {
      s := [];
    } else {
      var i: nat :| MayTake(h, ids, done, r, i) && CanFinish(h, ids, done + {i}, ModelApply(r, h[i].call).0);
      assert ids - (done + {i}) < ids - done;
      var t := SearchSound(h, ids, done + {i}, ModelApply(r, h[i].call).0);
      TakeFirst(h, ids, done, r, i, t);
      s := [i] + t;
      forall j | j in ids - done && j < |h| && Complete(h[j]) ensures h[j].invoke <= h[j].ret {
        if j != i { assert j in ids - (done + {i}); }
      }
    }
  }

  lemma FirstTaken(h: History, ids: set<nat>, done: set<nat>, r: Register, s: seq<nat>)
    requires Timely(h, ids, done) && Finishes(h, ids, done, r, s) && s != []
    ensures MayTake(h, ids, done, r, s[0])
    ensures Finishes(h, ids, done + {s[0]}, ModelApply(r, h[s[0]].call).0, s[1..])
  {
    var i := s[0];
    forall j | j in ids - done && j < |h| && Complete(h[j]) ensures h[i].invoke <= h[j].ret {
      assert j in s;
      var y :| 0 <= y < |s| && s[y] == j;
      if y > 0 { assert Allowed(h[s[0]], h[s[y]]); }
    }
    TailRealTime(h, s);
    var t := s[1..];
    forall y | 0 <= y < |t| ensures t[y] in ids - (done + {i}) {
      assert s[y + 1] in ids - done && s[0] != s[y + 1];
    }
    forall j | j in ids - (done + {i}) && j < |h| && Complete(h[j]) ensures j in t {
      assert j in s;
      var y :| 0 <= y < |s| && s[y] == j;
      assert t[y - 1] == j;
    }
    assert Distinct(t) by {
      forall x, y | 0 <= x < y < |t| ensures t[x] != t[y] { assert s[x + 1] != s[y + 1]; }
    }
  }

  lemma Unsettled(h: History, ids: set<nat>, done: set<nat>, s: seq<nat>)
    requires In(h, s) && Covers(h, ids - done, s) && !Settled(h, ids, done)
    ensures s != []
  {
    var i :| i in ids && i < |h| && Complete(h[i]) && i !in done;
    assert i in ids - done && i in s;
  }

  lemma {:induction false} SearchComplete(h: History, ids: set<nat>, done: set<nat>, r: Register, s: seq<nat>)
    requires Timely(h, ids, done) && Finishes(h, ids, done, r, s)
    ensures CanFinish(h, ids, done, r)
    decreases s
  {
    if !Settled(h, ids, done) {
      Unsettled(h, ids, done, s);
      var i := s[0];
      FirstTaken(h, ids, done, r, s);
      assert Timely(h, ids, done + {i});
      SearchComplete(h, ids, done + {i}, ModelApply(r, h[i].call).0, s[1..]);
      assert MayTake(h, ids, done, r, i);
    }
  }

  ghost predicate KeyTimed(h: History, k: Bytes) {
    forall i :: 0 <= i < |h| && h[i].call.key == k && Complete(h[i]) ==> h[i].invoke <= h[i].ret
  }

  /** For every history and key: the search succeeds exactly when the key's operations are
      linearizable and none of them responded before it was invoked. */
  lemma SearchExact(h: History, k: Bytes)
    ensures CanFinish(h, IdsOf(h, k), {}, Unset) <==> KeyTimed(h, k) && KeyLinearizable(h, k)
  {
    var ids := IdsOf(h, k);
    assert ids - {} == ids;
    if CanFinish(h, ids, {}, Unset) {
      var s := SearchSound(h, ids, {}, Unset);
      assert In(h, s) && Covers(h, ids, s) && RealTime(h, s) && Replays(h, Unset, s);
      forall i | 0 <= i < |h| && h[i].call.key == k && Complete(h[i]) ensures h[i].invoke <= h[i].ret {
        assert i in ids - {};
      }
    }
    if KeyTimed(h, k) && KeyLinearizable(h, k) {
      var s :| In(h, s) && Covers(h, ids, s) && RealTime(h, s) && Replays(h, Unset, s);
      assert Finishes(h, ids, {}, Unset, s);
      SearchComplete(h, ids, {}, Unset, s);
    }
  }

  /** A response stamped before its own invocation is refused although one order explains it. */
  lemma IllTimedRefused()
    ensures var h := [ClientOp(Call(Get, [], [], []), 5, 3, NotFound)];
            KeyLinearizable(h, []) && !CanFinish(h, IdsOf(h, []), {}, Unset)
  {
    var h := [ClientOp(Call(Get, [], [], []), 5, 3, NotFound)];
    var s: seq<nat> := [0];
    assert s[1..] == [];
    assert In(h, s) && Covers(h, IdsOf(h, []), s) && RealTime(h, s) && Replays(h, Unset, s);
    SearchExact(h, []);
    assert !(h[0].invoke <= h[0].ret);
  }

  // ---- the memo key --------------------------------------------------------------------------------------

  /** What has been taken so far, one bit an operation, and the register that leaves. The source keeps the
      bits in 64-bit words; the words end to end, lowest bit first, are `mask`. */
  datatype Config = Config(mask: Bits, r: Register)

  predicate Sized(m: Config, n: nat) { |m.mask| == 8 * n }

  /** Eight bits a byte, lowest first: the bytes of the words, lowest first. */
  function MaskBytes(mask: Bits, n: nat): (bs: Bytes)
    requires |mask| == 8 * n
    ensures |bs| == n
    decreases n
  {
    if n == 0 then [] else MaskBytes(mask[..8 * n - 8], n - 1) + [ByteOf(mask[8 * n - 8..])]
  }

  function ByteOf(bits: Bits): Byte
    requires |bits| == 8
  {
    NumberFits(bits);
    Powers();
    NumberOf(bits)
  }

  lemma {:induction false} MaskBytesInjective(a: Bits, b: Bits, n: nat)
    requires |a| == |b| == 8 * n && MaskBytes(a, n) == MaskBytes(b, n)
    ensures a == b
    decreases n
  {
    if n > 0 {
      var m := 8 * n - 8;
      var x, y := MaskBytes(a, n), MaskBytes(b, n);
      assert x[..n - 1] == MaskBytes(a[..m], n - 1) && y[..n - 1] == MaskBytes(b[..m], n - 1);
      assert x[n - 1] == ByteOf(a[m..]) && y[n - 1] == ByteOf(b[m..]);
      MaskBytesInjective(a[..m], b[..m], n - 1);
      NumberInjective(a[m..], b[m..]);
      assert a == a[..m] + a[m..] && b == b[..m] + b[m..];
    }
  }

  /** The mask, a presence byte, the value. */
  function MemoKey(m: Config, n: nat): Bytes
    requires Sized(m, n)
  {
    MaskBytes(m.mask, n) + [if m.r.present then 1 else 0] + m.r.value
  }

  /** Within one search no two configurations share a key. */
  lemma MemoKeyInjective(a: Config, b: Config, n: nat)
    requires Sized(a, n) && Sized(b, n) && MemoKey(a, n) == MemoKey(b, n)
    ensures a == b
  {
    var x, y := MemoKey(a, n), MemoKey(b, n);
    assert x[..n] == MaskBytes(a.mask, n) && y[..n] == MaskBytes(b.mask, n);
    MaskBytesInjective(a.mask, b.mask, n);
    assert x[n] == (if a.r.present then 1 else 0) && y[n] == if b.r.present then 1 else 0;
    assert x[n + 1..] == a.r.value && y[n + 1..] == b.r.value;
  }

  // ---- the memoised search ---------------------------------------------------------------------------------

  /** The operations of one key, listed in any order, and the keys of the configurations already tried. */
  class KeySearch {
    const h: History
    const ops: seq<nat>
    const words: nat
    var visited: set<Bytes>

    constructor (h: History, ops: seq<nat>)
      requires In(h, ops) && Distinct(ops)
      ensures this.h == h && this.ops == ops && visited == {} && Valid()
    {
      this.h, this.ops, this.words, visited := h, ops, (|ops| + 63) / 64, {};
    }

    ghost predicate Valid() { In(h, ops) && Distinct(ops) && |ops| <= 64 * words }

    ghost function Ids(): set<nat> { set i | i in ops }

    ghost predicate Fitting(m: Config) { Sized(m, 8 * words) }

    /** The operations that are taken. */
    ghost function Done(m: Config): set<nat>
      requires Valid() && Fitting(m)
    {
      set x | 0 <= x < |ops| && m.mask[x] :: ops[x]
    }

    ghost predicate Ends(m: Config)
      requires Valid() && Fitting(m)
    {
      CanFinish(h, Ids(), Done(m), m.r)
    }

    function Key(m: Config): Bytes
      requires Sized(m, 8 * words)
    {
      MemoKey(m, 8 * words)
    }

    function Take(m: Config, x: nat): Config
      requires x < |ops| && In(h, ops) && |ops| <= |m.mask|
    {
      Config(m.mask[x := true], ModelApply(m.r, h[ops[x]].call).0)
    }

    lemma TakenIsDone(m: Config, x: nat)
      requires Valid() && Fitting(m) && x < |ops|
      ensures ops[x] in Done(m) <==> m.mask[x]
    {}

    lemma TakeAdds(m: Config, x: nat)
      requires Valid() && Fitting(m) && x < |ops| && !m.mask[x]
      ensures Fitting(Take(m, x)) && Done(Take(m, x)) == Done(m) + {ops[x]}
      ensures ops[x] !in Done(m) && Ids() - Done(Take(m, x)) < Ids() - Done(m)
    {
      var t := Take(m, x);
      assert t.mask[x] && forall y :: 0 <= y < |ops| && y != x ==> t.mask[y] == m.mask[y];
      forall i | i in Done(m) + {ops[x]} ensures i in Done(t) {
        if i in Done(m) {
          var y :| 0 <= y < |ops| && m.mask[y] && ops[y] == i;
          assert t.mask[y];
        }
      }
      TakenIsDone(m, x);
      assert ops[x] in Ids();
    }

    // -- the memo

    /** A remembered configuration is a dead end. */
    ghost predicate DeadIf(m: Config, keys: set<Bytes>)
      requires Valid()
    {
      Fitting(m) && Key(m) in keys ==> !Ends(m)
    }

    ghost predicate Below(m: Config, top: Config)
      requires Valid() && Fitting(top)
    {
      Fitting(m) && Done(m) < Done(top)
    }

    /** A remembered configuration is a dead end, unless the search is still inside it. */
    ghost predicate MemoFor(top: Config)
      requires Valid() && Fitting(top)
      reads this
    {
      forall m {:trigger DeadIf(m, visited)} :: Below(m, top) || DeadIf(m, visited)
    }

    /** What the memo gained, apart from `own`, are dead ends. */
    ghost predicate OnlyDeadAdded(before: set<Bytes>, own: set<Bytes>)
      requires Valid()
      reads this
    {
      before <= visited && forall m {:trigger DeadIf(m, visited - before - own)} :: DeadIf(m, visited - before - own)
    }

    /** Operation y of the list has been tried without success. */
    ghost predicate Tried(m: Config, y: nat)
      requires Valid() && Fitting(m) && y < |ops|
    {
      MayTake(h, Ids(), Done(m), m.r, ops[y]) ==>
        !CanFinish(h, Ids(), Done(m) + {ops[y]}, ModelApply(m.r, h[ops[y]].call).0)
    }

    lemma AllTried(m: Config)
      requires Valid() && Fitting(m) && !Settled(h, Ids(), Done(m)) && forall y :: 0 <= y < |ops| ==> Tried(m, y)
      ensures !Ends(m)
    {
      forall i: nat | MayTake(h, Ids(), Done(m), m.r, i)
        ensures !CanFinish(h, Ids(), Done(m) + {i}, ModelApply(m.r, h[i].call).0)
      {
        var y :| 0 <= y < |ops| && ops[y] == i;
        assert Tried(m, y);
      }
    }

    lemma OneFound(m: Config, x: nat)
      requires Valid() && Fitting(m) && x < |ops| && MayTake(h, Ids(), Done(m), m.r, ops[x])
      requires CanFinish(h, Ids(), Done(m) + {ops[x]}, ModelApply(m.r, h[ops[x]].call).0)
      ensures Ends(m)
    {}

    lemma KeyNames(a: Config, b: Config)
      requires Fitting(a) && Fitting(b) && Key(a) == Key(b)
      ensures a == b
    {
      MemoKeyInjective(a, b, 8 * words);
    }

    /** One level down, what this level remembered is below. */
    lemma MemoDeeper(before: set<Bytes>, m: Config, x: nat)
      requires Valid() && Fitting(m) && x < |ops| && !m.mask[x] && OnlyDeadAdded(before, {Key(m)})
      requires forall c {:trigger DeadIf(c, before)} :: Below(c, m) || DeadIf(c, before)
      ensures Fitting(Take(m, x)) && MemoFor(Take(m, x))
    {
      TakeAdds(m, x);
      forall c ensures Below(c, Take(m, x)) || DeadIf(c, visited) {
        assert Below(c, m) || DeadIf(c, before);
        assert DeadIf(c, visited - before - {Key(m)});
        if Fitting(c) && Key(c) == Key(m) { KeyNames(c, m); }
      }
    }

    lemma MemoGrows(before: set<Bytes>, mid: set<Bytes>, own: set<Bytes>)
      requires Valid() && before <= mid && OnlyDeadAdded(mid, {})
      requires forall c {:trigger DeadIf(c, mid - before - own)} :: DeadIf(c, mid - before - own)
      ensures OnlyDeadAdded(before, own)
    {
      forall c ensures DeadIf(c, visited - before - own) {
        assert DeadIf(c, mid - before - own) && DeadIf(c, visited - mid - {});
      }
    }

    /** This level's own configuration turns out to be a dead end. */
    lemma OwnDead(before: set<Bytes>, m: Config)
      requires Valid() && Fitting(m) && !Ends(m) && OnlyDeadAdded(before, {Key(m)})
      ensures OnlyDeadAdded(before, {})
    {
      forall c ensures DeadIf(c, visited - before - {}) {
        assert DeadIf(c, visited - before - {Key(m)});
        if Fitting(c) && Key(c) == Key(m) { KeyNames(c, m); }
      }
    }

    // -- the search

    /** Is anything completed left, and which operations does real time allow next? */
    method EarliestReturn(m: Config) returns (settled: bool, minReturn: int)
      requires Valid() && Fitting(m)
      ensures settled <==> Settled(h, Ids(), Done(m))
      ensures !settled ==> forall i :: 0 <= i < |h| ==> (h[i].invoke <= minReturn <==> Eligible(h, Ids(), Done(m), i))
    {
      settled, minReturn := true, 0;
      ghost var least: nat := 0;
      for x := 0 to |ops|
        invariant settled <==> forall y :: 0 <= y < x && Complete(h[ops[y]]) ==> m.mask[y]
        invariant !settled ==> least < x && !m.mask[least] && Complete(h[ops[least]]) && h[ops[least]].ret == minReturn
        invariant !settled ==>
                    forall y :: 0 <= y < x && !m.mask[y] && Complete(h[ops[y]]) ==> minReturn <= h[ops[y]].ret
      {
        if !m.mask[x] && Complete(h[ops[x]]) {
          if settled || h[ops[x]].ret < minReturn {
            minReturn := h[ops[x]].ret;
            least := x;
          }
          settled := false;
        }
      }
      if settled { AllDone(m); } else { EarliestIs(m, least, minReturn); }
    }

    lemma AllDone(m: Config)
      requires Valid() && Fitting(m) && forall y :: 0 <= y < |ops| && Complete(h[ops[y]]) ==> m.mask[y]
      ensures Settled(h, Ids(), Done(m))
    {
      forall i | i in Ids() && i < |h| && Complete(h[i]) ensures i in Done(m) {
        var y :| 0 <= y < |ops| && ops[y] == i;
        TakenIsDone(m, y);
      }
    }

    lemma EarliestIs(m: Config, least: nat, minReturn: int)
      requires Valid() && Fitting(m)
      requires least < |ops| && !m.mask[least] && Complete(h[ops[least]]) && h[ops[least]].ret == minReturn
      requires forall y :: 0 <= y < |ops| && !m.mask[y] && Complete(h[ops[y]]) ==> minReturn <= h[ops[y]].ret
      ensures !Settled(h, Ids(), Done(m))
      ensures forall i :: 0 <= i < |h| ==> (h[i].invoke <= minReturn <==> Eligible(h, Ids(), Done(m), i))
    {
      TakenIsDone(m, least);
      assert ops[least] in Ids() - Done(m);
      forall i | 0 <= i < |h| && h[i].invoke <= minReturn ensures Eligible(h, Ids(), Done(m), i) {
        forall j | j in Ids() - Done(m) && j < |h| && Complete(h[j]) ensures h[i].invoke <= h[j].ret {
          var y :| 0 <= y < |ops| && ops[y] == j;
          TakenIsDone(m, y);
        }
      }
    }

    method Dfs(m: Config) returns (found: bool)
      requires Valid() && Fitting(m) && MemoFor(m)
      modifies this
      ensures found <==> Ends(m)
      ensures !found ==> OnlyDeadAdded(old(visited), {})
      decreases Ids() - Done(m)
    {
      var settled, minReturn := EarliestReturn(m);
      if settled { return true; }
      if Key(m) in visited {
        assert Below(m, m) || DeadIf(m, visited);
        return false;
      }
      ghost var before := visited;
      visited := visited + {Key(m)};
      for x := 0 to |ops|
        invariant OnlyDeadAdded(before, {Key(m)})
        invariant forall y :: 0 <= y < x ==> Tried(m, y)
      {
        TakenIsDone(m, x);
        if !m.mask[x] && h[ops[x]].invoke <= minReturn {
          var result := ModelApply(m.r, h[ops[x]].call).1;
          if !Complete(h[ops[x]]) || result == h[ops[x]].result {
            TakeAdds(m, x);
            MemoDeeper(before, m, x);
            ghost var mid := visited;
            found := Dfs(Take(m, x));
            if found {
              assert ops[x] in Ids() && MayTake(h, Ids(), Done(m), m.r, ops[x]);
              OneFound(m, x);
              return true;
            }
            MemoGrows(before, mid, {Key(m)});
          }
        }
      }
      AllTried(m);
      OwnDead(before, m);
      return false;
    }
  }

  // ---- the whole check ----------------------------------------------------------------------------------------

  /** Operations of the first n entries, grouped by key. */
  ghost predicate Grouped(h: History, n: nat, groups: map<Bytes, seq<nat>>) {
    && n <= |h|
    && (forall k {:trigger groups[k]} :: k in groups ==>
          In(h, groups[k]) && forall i: nat :: i in groups[k] <==> i < n && h[i].call.key == k)
    && (forall i :: 0 <= i < n ==> h[i].call.key in groups)
    && (forall k {:trigger groups[k]} :: k in groups ==> groups[k] != [] && Distinct(groups[k]))
  }

  method GroupByKey(h: History) returns (groups: map<Bytes, seq<nat>>)
    ensures Grouped(h, |h|, groups)
  {
    groups := map[];
    for n := 0 to |h|
      invariant Grouped(h, n, groups)
    {
      var k := h[n].call.key;
      groups := groups[k := (if k in groups then groups[k] else []) + [n]];
    }
  }

  /** One key's search, from an empty mask and an unset register. */
  method CheckKey(h: History, k: Bytes, ops: seq<nat>) returns (found: bool)
    requires In(h, ops) && Distinct(ops) && forall i: nat :: i in ops <==> i < |h| && h[i].call.key == k
    ensures found <==> KeyTimed(h, k) && KeyLinearizable(h, k)
  {
    var search := new KeySearch(h, ops);
    assert search.Ids() == IdsOf(h, k);
    var start := Config(Zeros(64 * search.words), Unset);
    assert search.Done(start) == {};
    found := search.Dfs(start);
    SearchExact(h, k);
  }

  /** Accepts exactly the linearizable histories whose responses follow their invocations. */
  method CheckLinearizable(h: History) returns (ok: bool)
    ensures ok <==> WellTimed(h) && Linearizable(h)
  {
    var groups := GroupByKey(h);
    KeysDecide(h, groups);
    var todo := groups.Keys;
    while todo != {}
      invariant todo <= groups.Keys
      invariant forall k :: k in groups.Keys - todo ==> KeyTimed(h, k) && KeyLinearizable(h, k)
      decreases |todo|
    {
      var k :| k in todo;
      var found := CheckKey(h, k, groups[k]);
      if !found { return false; }
      todo := todo - {k};
    }
    return true;
  }

  lemma KeysDecide(h: History, groups: map<Bytes, seq<nat>>)
    requires Grouped(h, |h|, groups)
    ensures (forall k :: k in groups ==> KeyTimed(h, k) && KeyLinearizable(h, k)) <==> WellTimed(h) && Linearizable(h)
  {
    assert groups.Keys == KeysOf(h) by {
      forall k | k in groups ensures k in KeysOf(h) {
        var i := groups[k][0];
        assert i in groups[k] && h[i].call.key == k;
      }
    }
    if forall k :: k in groups ==> KeyTimed(h, k) && KeyLinearizable(h, k) {
      forall i | 0 <= i < |h| && Complete(h[i]) ensures h[i].invoke <= h[i].ret {
        assert KeyTimed(h, h[i].call.key);
      }
    }
    if WellTimed(h) { LinearizablePerKey(h); }
  }
}
