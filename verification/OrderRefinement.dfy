/** The engine refines the reference: on every command stream both give the same replies, and the
    engine's levels always are the reference's list read level by level. */
module OrderRefinement {
  import opened Common
  import opened OrderTypes
  import E = OrderEngine
  import R = OrderReference

  // ---- reading a level off the flat list ------------------------------------------------------

  predicate At(o: R.Order, s: Side, p: nat) { o.side == s && o.price == p }

  function LevelOf(os: seq<R.Order>, s: Side, p: nat): E.Level {
    if os == [] then []
    else (if At(os[0], s, p) then [E.Resting(os[0].id, os[0].qty)] else []) + LevelOf(os[1..], s, p)
  }

  lemma {:induction false} LevelConcat(a: seq<R.Order>, b: seq<R.Order>, s: Side, p: nat)
    ensures LevelOf(a + b, s, p) == LevelOf(a, s, p) + LevelOf(b, s, p)
  {
    if a == [] {
      assert a + b == b;
    } else {
      assert (a + b)[1..] == a[1..] + b && (a + b)[0] == a[0];
      LevelConcat(a[1..], b, s, p);
      var front := if At(a[0], s, p) then [E.Resting(a[0].id, a[0].qty)] else [];
      LevelsAssociate(front, LevelOf(a[1..], s, p), LevelOf(b, s, p));
    }
  }

  lemma LevelsAssociate(a: E.Level, b: E.Level, c: E.Level)
    ensures (a + b) + c == a + (b + c)
  {}

  lemma LevelOfOne(o: R.Order, s: Side, p: nat)
    ensures LevelOf([o], s, p) == if At(o, s, p) then [E.Resting(o.id, o.qty)] else []
  {
    assert [o][1..] == [];
  }

  /** The list with element k replaced by x, which is empty or one order. */
  function Spliced(os: seq<R.Order>, k: nat, x: seq<R.Order>): seq<R.Order>
    requires k < |os|
  {
    os[..k] + x + os[k + 1..]
  }

  lemma LevelSpliced(os: seq<R.Order>, k: nat, x: seq<R.Order>, s: Side, p: nat)
    requires k < |os|
    ensures LevelOf(Spliced(os, k, x), s, p)
            == LevelOf(os[..k], s, p) + LevelOf(x, s, p) + LevelOf(os[k + 1..], s, p)
    ensures LevelOf(os, s, p)
            == LevelOf(os[..k], s, p) + LevelOf([os[k]], s, p) + LevelOf(os[k + 1..], s, p)
  {
    LevelConcat(os[..k] + x, os[k + 1..], s, p);
    LevelConcat(os[..k], x, s, p);
    LevelConcat(os[..k] + [os[k]], os[k + 1..], s, p);
    LevelConcat(os[..k], [os[k]], s, p);
    assert os[..k] + [os[k]] + os[k + 1..] == os;
  }

  lemma {:induction false} NothingAt(os: seq<R.Order>, s: Side, p: nat)
    requires forall j :: 0 <= j < |os| ==> !At(os[j], s, p)
    ensures LevelOf(os, s, p) == []
  {
    if os != [] { NothingAt(os[1..], s, p); }
  }

  lemma {:induction false} IdNotInLevel(os: seq<R.Order>, s: Side, p: nat, id: nat)
    requires forall j :: 0 <= j < |os| ==> os[j].id != id
    ensures forall m :: 0 <= m < |LevelOf(os, s, p)| ==> LevelOf(os, s, p)[m].id != id
  {
    if os != [] { IdNotInLevel(os[1..], s, p, id); }
  }

  /** First list position of a non-empty level: its front order. */
  function FirstAt(os: seq<R.Order>, s: Side, p: nat): (k: nat)
    ensures k <= |os|
    ensures k < |os| ==> At(os[k], s, p)
    ensures forall j :: 0 <= j < k ==> !At(os[j], s, p)
  {
    if os == [] || At(os[0], s, p) then 0
    else
      assert forall j :: 1 <= j < |os| ==> os[j] == os[1..][j - 1];
      1 + FirstAt(os[1..], s, p)
  }

  lemma FirstAtExists(os: seq<R.Order>, s: Side, p: nat)
    requires LevelOf(os, s, p) != []
    ensures FirstAt(os, s, p) < |os|
  {
    if FirstAt(os, s, p) == |os| { NothingAt(os, s, p); }
  }

  lemma FrontOfLevel(os: seq<R.Order>, s: Side, p: nat)
    requires LevelOf(os, s, p) != []
    ensures var k := FirstAt(os, s, p);
            && k < |os| && LevelOf(os[..k], s, p) == []
            && LevelOf(os, s, p) == [E.Resting(os[k].id, os[k].qty)] + LevelOf(os[k + 1..], s, p)
  {
    FirstAtExists(os, s, p);
    SplitAtFirst(os, s, p, FirstAt(os, s, p));
  }

  lemma SplitAtFirst(os: seq<R.Order>, s: Side, p: nat, k: nat)
    requires k < |os| && At(os[k], s, p) && forall j :: 0 <= j < k ==> !At(os[j], s, p)
    ensures LevelOf(os[..k], s, p) == []
    ensures LevelOf(os, s, p) == [E.Resting(os[k].id, os[k].qty)] + LevelOf(os[k + 1..], s, p)
  {
    NothingAt(os[..k], s, p);
    LevelSpliced(os, k, [], s, p);
    LevelOfOne(os[k], s, p);
  }

  // ---- the refinement relation ---------------------------------------------------------------------

  ghost predicate BooksAgree(e: E.Engine, os: seq<R.Order>) {
    forall s, p {:trigger LevelOf(os, s, p)} :: E.LevelAt(E.BookOf(e, s), p) == LevelOf(os, s, p)
  }

  ghost predicate Listed(os: seq<R.Order>, id: nat) { exists k :: 0 <= k < |os| && os[k].id == id }

  ghost predicate IndexAgrees(ix: E.Index, os: seq<R.Order>) {
    && (forall k :: 0 <= k < |os| ==> os[k].id in ix && ix[os[k].id] == (os[k].side, os[k].price))
    && (forall id {:trigger Listed(os, id)} :: id in ix ==> Listed(os, id))
  }

  predicate Apart(a: R.Order, b: R.Order) { a.id != b.id }

  ghost predicate DistinctIds(os: seq<R.Order>) {
    forall i, j {:trigger Apart(os[i], os[j])} :: 0 <= i < j < |os| ==> Apart(os[i], os[j])
  }

  /** Engine books and flat list describe the same resting orders. */
  ghost predicate Agree(e: E.Engine, os: seq<R.Order>) {
    && E.GoodBook(e.bids) && E.GoodBook(e.asks)
    && BooksAgree(e, os) && IndexAgrees(e.index, os)
    && DistinctIds(os) && R.ByArrival(os) && R.Positive(os)
  }

  /** Agreement looks at the books and the index only. */
  lemma AgreeFrame(e: E.Engine, e': E.Engine, os: seq<R.Order>)
    requires Agree(e, os) && e'.bids == e.bids && e'.asks == e.asks && e'.index == e.index
    ensures Agree(e', os)
  {
    forall s, p: nat ensures E.LevelAt(E.BookOf(e', s), p) == LevelOf(os, s, p) {
      assert E.LevelAt(E.BookOf(e, s), p) == LevelOf(os, s, p);
    }
  }

  // ---- one fill --------------------------------------------------------------------------------------

  /** Replacing or deleting one order keeps arrival order, distinct ids and the rest of the list. */
  lemma SplicedList(os: seq<R.Order>, k: nat, x: seq<R.Order>)
    requires k < |os| && DistinctIds(os) && R.ByArrival(os) && R.Positive(os)
    requires |x| <= 1 && (|x| == 1 ==> x[0].qty > 0 && x[0] == os[k].(qty := x[0].qty))
    ensures var t := Spliced(os, k, x); DistinctIds(t) && R.ByArrival(t) && R.Positive(t)
  {
    var t := Spliced(os, k, x);
    forall i, j | 0 <= i < j < |t| ensures Apart(t[i], t[j]) && R.Before(t[i], t[j]) {
      var i', j' := if i < k + |x| then i else i + 1 - |x|, if j < k + |x| then j else j + 1 - |x|;
      assert Apart(os[i'], os[j']) && R.Before(os[i'], os[j']);
    }
  }

  lemma SplicedIndex(ix: E.Index, os: seq<R.Order>, k: nat, x: seq<R.Order>)
    requires k < |os| && DistinctIds(os) && IndexAgrees(ix, os)
    requires |x| <= 1 && (|x| == 1 ==> x[0] == os[k].(qty := x[0].qty))
    ensures IndexAgrees(if x == [] then ix - {os[k].id} else ix, Spliced(os, k, x))
  {
    var t := Spliced(os, k, x);
    var ix' := if x == [] then ix - {os[k].id} else ix;
    forall i | 0 <= i < |t| ensures t[i].id in ix' && ix'[t[i].id] == (t[i].side, t[i].price) {
      var o := os[if i < k + |x| then i else i + 1 - |x|];
      assert t[i].id == o.id && t[i].side == o.side && t[i].price == o.price;
      assert i < k ==> Apart(os[i], os[k]);
      assert i >= k + |x| ==> Apart(os[k], os[i + 1 - |x|]);
    }
    forall id | id in ix' ensures Listed(t, id) {
      assert Listed(os, id);
      var j :| 0 <= j < |os| && os[j].id == id;
      var i := if j < k + |x| then j else j - 1 + |x|;
      assert t[i].id == id;
    }
  }

  /** Book b is the level map of one side with element k of the list replaced by x. */
  ghost predicate TakesOver(e: E.Engine, os: seq<R.Order>, k: nat, x: seq<R.Order>, b: E.Book)
    requires k < |os|
  {
    && (forall q: nat {:trigger E.LevelAt(b, q)} :: q != os[k].price ==>
          E.LevelAt(b, q) == E.LevelAt(E.BookOf(e, os[k].side), q))
    && E.LevelAt(b, os[k].price)
       == LevelOf(os[..k], os[k].side, os[k].price) + LevelOf(x, os[k].side, os[k].price)
          + LevelOf(os[k + 1..], os[k].side, os[k].price)
  }

  /** Other levels do not notice. */
  lemma SplicedElsewhere(os: seq<R.Order>, k: nat, x: seq<R.Order>, s: Side, p: nat)
    requires k < |os| && |x| <= 1 && (|x| == 1 ==> At(x[0], os[k].side, os[k].price)) && !At(os[k], s, p)
    ensures LevelOf(Spliced(os, k, x), s, p) == LevelOf(os, s, p)
  {
    LevelSpliced(os, k, x, s, p);
    LevelOfOne(os[k], s, p);
    if |x| == 1 {
      assert x == [x[0]];
      LevelOfOne(x[0], s, p);
    }
    assert LevelOf(x, s, p) == [];
  }

  lemma SplicedBooksAt(e: E.Engine, os: seq<R.Order>, k: nat, x: seq<R.Order>, b: E.Book, s: Side, p: nat)
    requires k < |os| && BooksAgree(e, os) && TakesOver(e, os, k, x, b)
    requires |x| <= 1 && (|x| == 1 ==> At(x[0], os[k].side, os[k].price))
    ensures E.LevelAt(E.BookOf(E.WithBook(e, os[k].side, b), s), p) == LevelOf(Spliced(os, k, x), s, p)
  {
    if At(os[k], s, p) {
      LevelSpliced(os, k, x, s, p);
      assert E.BookOf(E.WithBook(e, os[k].side, b), s) == b;
    } else {
      SplicedElsewhere(os, k, x, s, p);
      assert E.LevelAt(E.BookOf(e, s), p) == LevelOf(os, s, p);
      if s == os[k].side { assert E.LevelAt(b, p) == E.LevelAt(E.BookOf(e, os[k].side), p); }
    }
  }

  /** Books stay in agreement when one level takes over the change made to its one order. */
  lemma SplicedBooks(e: E.Engine, os: seq<R.Order>, k: nat, x: seq<R.Order>, b: E.Book)
    requires k < |os| && BooksAgree(e, os) && TakesOver(e, os, k, x, b)
    requires |x| <= 1 && (|x| == 1 ==> At(x[0], os[k].side, os[k].price))
    ensures BooksAgree(E.WithBook(e, os[k].side, b), Spliced(os, k, x))
  {
    forall s, p: nat
      ensures E.LevelAt(E.BookOf(E.WithBook(e, os[k].side, b), s), p) == LevelOf(Spliced(os, k, x), s, p)
    {
      SplicedBooksAt(e, os, k, x, b, s, p);
    }
  }

  /** The engine's best front order is the one the reference picks. */
  lemma SamePick(e: E.Engine, os: seq<R.Order>, taker: Side, limit: nat)
    requires Agree(e, os) && E.BookOf(e, Other(taker)) != map[]
    requires Crosses(taker, E.Best(taker, E.BookOf(e, Other(taker))), limit)
    ensures var b := E.BookOf(e, Other(taker));
            var p := E.Best(taker, b);
            var k := FirstAt(os, Other(taker), p);
            && k < |os| && R.Pick(os, taker, limit, |os|) == Some(k)
            && LevelOf(os[..k], Other(taker), p) == []
            && b[p] == [E.Resting(os[k].id, os[k].qty)] + LevelOf(os[k + 1..], Other(taker), p)
  {
    var s := Other(taker);
    var b := E.BookOf(e, s);
    var p := E.Best(taker, b);
    assert E.GoodLevel(b[p]);
    FrontInList(e, os, s, p);
    FrontChosen(e, os, taker, limit, FirstAt(os, s, p));
    R.PickIsChosen(os, taker, limit, FirstAt(os, s, p));
  }

  /** The front of a level is the first order of the list at its price. */
  lemma FrontInList(e: E.Engine, os: seq<R.Order>, s: Side, p: nat)
    requires BooksAgree(e, os) && p in E.BookOf(e, s) && E.BookOf(e, s)[p] != []
    ensures var k := FirstAt(os, s, p);
            && k < |os| && LevelOf(os[..k], s, p) == []
            && E.BookOf(e, s)[p] == [E.Resting(os[k].id, os[k].qty)] + LevelOf(os[k + 1..], s, p)
  {
    assert LevelOf(os, s, p) == E.LevelAt(E.BookOf(e, s), p);
    FrontOfLevel(os, s, p);
  }

  lemma FrontChosen(e: E.Engine, os: seq<R.Order>, taker: Side, limit: nat, k: nat)
    requires BooksAgree(e, os) && R.ByArrival(os) && k < |os| && os[k].side == Other(taker)
    requires E.IsBest(taker, E.BookOf(e, Other(taker)), os[k].price) && Crosses(taker, os[k].price, limit)
    requires k == FirstAt(os, Other(taker), os[k].price)
    ensures R.Chosen(os, taker, limit, k)
  {
    forall j | 0 <= j < |os| && j != k && R.Candidate(os[j], taker, limit)
      ensures R.Preferred(taker, os[k], os[j])
    {
      FrontPreferred(e, os, taker, k, j);
    }
  }

  /** The first order at the best price beats every other opposite order. */
  lemma FrontPreferred(e: E.Engine, os: seq<R.Order>, taker: Side, k: nat, j: nat)
    requires BooksAgree(e, os) && R.ByArrival(os)
    requires k < |os| && j < |os| && j != k && os[j].side == Other(taker)
    requires E.IsBest(taker, E.BookOf(e, Other(taker)), os[k].price)
    requires k == FirstAt(os, Other(taker), os[k].price)
    ensures R.Preferred(taker, os[k], os[j])
  {
    PriceInBook(e, os, j);
    if os[j].price == os[k].price {
      assert At(os[j], Other(taker), os[k].price);
      assert R.Before(os[k], os[j]);
    }
  }

  lemma PriceInBook(e: E.Engine, os: seq<R.Order>, j: nat)
    requires BooksAgree(e, os) && j < |os|
    ensures os[j].price in E.BookOf(e, os[j].side)
  {
    LevelSpliced(os, j, [], os[j].side, os[j].price);
    LevelOfOne(os[j], os[j].side, os[j].price);
    assert E.LevelAt(E.BookOf(e, os[j].side), os[j].price) == LevelOf(os, os[j].side, os[j].price);
  }

  lemma NoPick(e: E.Engine, os: seq<R.Order>, taker: Side, limit: nat)
    requires Agree(e, os)
    requires var b := E.BookOf(e, Other(taker)); b == map[] || !Crosses(taker, E.Best(taker, b), limit)
    ensures R.Pick(os, taker, limit, |os|).None?
  {
    R.PickBest(os, taker, limit, |os|);
    var k := R.Pick(os, taker, limit, |os|);
    if k.Some? {
      PriceInBook(e, os, k.value);
      assert false;
    }
  }

  /** The engine state after one fill of f from the best opposite order. */
  ghost function AfterFill(e: E.Engine, taker: Side, f: nat): E.Engine
    requires E.BookOf(e, Other(taker)) != map[] && E.GoodBook(E.BookOf(e, Other(taker)))
    requires f <= E.BookOf(e, Other(taker))[E.Best(taker, E.BookOf(e, Other(taker)))][0].qty
  {
    var b := E.BookOf(e, Other(taker));
    var p := E.Best(taker, b);
    E.WithBook(e, Other(taker), E.Taken(b, p, f))
      .(index := if f == b[p][0].qty then e.index - {b[p][0].id} else e.index)
  }

  /** What is left of order o after it gives up f. */
  function LeftOf(o: R.Order, f: nat): seq<R.Order>
    requires f <= o.qty
  {
    if f < o.qty then [o.(qty := o.qty - f)] else []
  }

  lemma DrawnSpliced(os: seq<R.Order>, k: nat, f: nat)
    requires k < |os| && f <= os[k].qty
    ensures R.Drawn(os, k, f) == Spliced(os, k, LeftOf(os[k], f))
  {}

  lemma TakenTakesOver(e: E.Engine, os: seq<R.Order>, s: Side, p: nat, k: nat, f: nat)
    requires k < |os| && At(os[k], s, p) && p in E.BookOf(e, s)
    requires E.BookOf(e, s)[p] == [E.Resting(os[k].id, os[k].qty)] + LevelOf(os[k + 1..], s, p)
    requires LevelOf(os[..k], s, p) == [] && f <= os[k].qty
    ensures TakesOver(e, os, k, LeftOf(os[k], f), E.Taken(E.BookOf(e, s), p, f))
  {
    TakenLevels(E.BookOf(e, s), p, E.Resting(os[k].id, os[k].qty), LevelOf(os[k + 1..], s, p), f);
    var x, rest := LeftOf(os[k], f), LevelOf(os[k + 1..], s, p);
    if f < os[k].qty { LevelOfOne(os[k].(qty := os[k].qty - f), s, p); } else { assert LevelOf(x, s, p) == []; }
    assert [] + LevelOf(x, s, p) + rest == LevelOf(x, s, p) + rest;
  }

  lemma TakenLevels(b: E.Book, p: nat, o: E.Resting, rest: E.Level, f: nat)
    requires p in b && b[p] == [o] + rest && f <= o.qty
    ensures E.LevelAt(E.Taken(b, p, f), p) == (if f < o.qty then [E.Resting(o.id, o.qty - f)] else []) + rest
    ensures forall q: nat {:trigger E.LevelAt(E.Taken(b, p, f), q)} :: q != p ==>
              E.LevelAt(E.Taken(b, p, f), q) == E.LevelAt(b, q)
  {
    assert b[p][1..] == rest;
  }

  lemma FillAgrees(e: E.Engine, os: seq<R.Order>, taker: Side, limit: nat, f: nat)
    requires Agree(e, os) && E.BookOf(e, Other(taker)) != map[] && 0 < f
    requires Crosses(taker, E.Best(taker, E.BookOf(e, Other(taker))), limit)
    requires f <= E.BookOf(e, Other(taker))[E.Best(taker, E.BookOf(e, Other(taker)))][0].qty
    ensures R.Pick(os, taker, limit, |os|).Some?
    ensures var k := R.Pick(os, taker, limit, |os|).value;
            && f <= os[k].qty && Agree(AfterFill(e, taker, f), R.Drawn(os, k, f))
  {
    SamePick(e, os, taker, limit);
    var b := E.BookOf(e, Other(taker));
    var k := FirstAt(os, Other(taker), E.Best(taker, b));
    FillAgreesAt(e, os, Other(taker), E.Best(taker, b), k, f);
  }

  lemma FillAgreesAt(e: E.Engine, os: seq<R.Order>, s: Side, p: nat, k: nat, f: nat)
    requires Agree(e, os) && p in E.BookOf(e, s)
    requires k < |os| && At(os[k], s, p) && f <= os[k].qty
    requires LevelOf(os[..k], s, p) == []
    requires E.BookOf(e, s)[p] == [E.Resting(os[k].id, os[k].qty)] + LevelOf(os[k + 1..], s, p)
    ensures var b := E.BookOf(e, s);
            Agree(E.WithBook(e, s, E.Taken(b, p, f))
                    .(index := if f == b[p][0].qty then e.index - {b[p][0].id} else e.index),
                  R.Drawn(os, k, f))
  {
    var x := LeftOf(os[k], f);
    DrawnSpliced(os, k, f);
    SplicedList(os, k, x);
    SplicedIndex(e.index, os, k, x);
    E.TakenGood(E.BookOf(e, s), p, f);
    TakenTakesOver(e, os, s, p, k, f);
    SplicedBooks(e, os, k, x, E.Taken(E.BookOf(e, s), p, f));
    SameBooks(E.WithBook(e, s, E.Taken(E.BookOf(e, s), p, f)), R.Drawn(os, k, f),
              if f == os[k].qty then e.index - {os[k].id} else e.index);
  }

  /** Agreement of the books does not look at the index. */
  lemma SameBooks(e: E.Engine, os: seq<R.Order>, ix: E.Index)
    requires BooksAgree(e, os)
    ensures BooksAgree(e.(index := ix), os)
  {
    var e' := e.(index := ix);
    forall s, p: nat ensures E.LevelAt(E.BookOf(e', s), p) == LevelOf(os, s, p) {
      assert E.LevelAt(E.BookOf(e, s), p) == LevelOf(os, s, p);
    }
  }

  // ---- a whole match -----------------------------------------------------------------------------------

  /** The engine after a match. */
  ghost function AfterMatch(e: E.Engine, taker: Side, m: E.Matched): E.Engine {
    E.WithBook(e, Other(taker), m.book).(index := m.index)
  }

  /** Matching and trading give the same fills and the same residual, and keep agreement. */
  ghost predicate MatchedAlike(e: E.Engine, os: seq<R.Order>, taker: Side, limit: nat, qty: nat)
    requires Agree(e, os)
  {
    var m := E.Match(taker, limit, qty, E.BookOf(e, Other(taker)), e.index);
    var t := R.Trade(os, taker, limit, qty);
    m.fills == t.fills && m.residual == t.residual && Agree(AfterMatch(e, taker, m), t.orders)
  }

  lemma {:induction false} MatchAgrees(e: E.Engine, os: seq<R.Order>, taker: Side, limit: nat, qty: nat)
    requires Agree(e, os)
    ensures MatchedAlike(e, os, taker, limit, qty)
    decreases qty
  {
    if Fills(e, taker, limit, qty) {
      var e1, os1, f := Onward(e, os, taker, limit, qty);
      MatchAgrees(e1, os1, taker, limit, qty - f);
    } else {
      NoMatch(e, os, taker, limit, qty);
    }
  }

  /** Is there anything left to trade, and anyone to trade it with? */
  ghost predicate Fills(e: E.Engine, taker: Side, limit: nat, qty: nat) {
    var b := E.BookOf(e, Other(taker));
    qty > 0 && b != map[] && Crosses(taker, E.Best(taker, b), limit)
  }

  /** What holds of the rest of the match holds of all of it. */
  lemma Onward(e: E.Engine, os: seq<R.Order>, taker: Side, limit: nat, qty: nat)
    returns (e1: E.Engine, os1: seq<R.Order>, f: nat)
    requires Agree(e, os) && Fills(e, taker, limit, qty)
    ensures 0 < f <= qty && Agree(e1, os1)
    ensures MatchedAlike(e1, os1, taker, limit, qty - f) ==> MatchedAlike(e, os, taker, limit, qty)
  {
    var fill: Fill;
    e1, os1, fill := FillStep(e, os, taker, limit, qty);
    f := fill.qty;
    if MatchedAlike(e1, os1, taker, limit, qty - f) { CarryOver(e, os, e1, os1, taker, limit, qty, fill); }
  }

  lemma NoMatch(e: E.Engine, os: seq<R.Order>, taker: Side, limit: nat, qty: nat)
    requires Agree(e, os)
    requires !Fills(e, taker, limit, qty)
    ensures MatchedAlike(e, os, taker, limit, qty)
  {
    if qty != 0 { NoPick(e, os, taker, limit); }
    SameEngine(e, Other(taker));
  }

  /** The engine's match is this fill, then the match of e1. */
  ghost predicate EngineFills(e: E.Engine, e1: E.Engine, taker: Side, limit: nat, qty: nat, fill: Fill) {
    && E.GoodBook(E.BookOf(e, Other(taker))) && E.GoodBook(E.BookOf(e1, Other(taker))) && fill.qty <= qty
    && var m := E.Match(taker, limit, qty - fill.qty, E.BookOf(e1, Other(taker)), e1.index);
    && E.Match(taker, limit, qty, E.BookOf(e, Other(taker)), e.index) == m.(fills := [fill] + m.fills)
    && AfterMatch(e1, taker, m) == AfterMatch(e, taker, m)
  }

  /** The reference's trade is this fill, then the trade of os1. */
  ghost predicate ReferenceFills(os: seq<R.Order>, os1: seq<R.Order>, taker: Side, limit: nat, qty: nat, fill: Fill) {
    && R.Positive(os) && R.Positive(os1) && fill.qty <= qty
    && var t := R.Trade(os1, taker, limit, qty - fill.qty);
       R.Trade(os, taker, limit, qty) == t.(fills := [fill] + t.fills)
  }

  lemma CarryOver(e: E.Engine, os: seq<R.Order>, e1: E.Engine, os1: seq<R.Order>, taker: Side, limit: nat, qty: nat,
                  fill: Fill)
    requires Agree(e, os) && Agree(e1, os1)
    requires EngineFills(e, e1, taker, limit, qty, fill) && ReferenceFills(os, os1, taker, limit, qty, fill)
    requires MatchedAlike(e1, os1, taker, limit, qty - fill.qty)
    ensures MatchedAlike(e, os, taker, limit, qty)
  {}

  /** One fill on both sides, after which both go on with what is left. */
  lemma FillStep(e: E.Engine, os: seq<R.Order>, taker: Side, limit: nat, qty: nat)
    returns (e1: E.Engine, os1: seq<R.Order>, fill: Fill)
    requires Agree(e, os) && Fills(e, taker, limit, qty)
    ensures 0 < fill.qty <= qty && Agree(e1, os1)
    ensures EngineFills(e, e1, taker, limit, qty, fill) && ReferenceFills(os, os1, taker, limit, qty, fill)
  {
    e1, fill := MatchTurn(e, taker, limit, qty);
    SamePick(e, os, taker, limit);
    FillAgrees(e, os, taker, limit, fill.qty);
    os1 := TradeTurn(os, taker, limit, qty, fill.qty);
  }

  lemma MatchTurn(e: E.Engine, taker: Side, limit: nat, qty: nat) returns (e1: E.Engine, fill: Fill)
    requires E.GoodBook(e.bids) && E.GoodBook(e.asks) && Fills(e, taker, limit, qty)
    ensures var b := E.BookOf(e, Other(taker));
            var p := E.Best(taker, b);
            && b[p] != [] && fill == Fill(b[p][0].id, p, Min(qty, b[p][0].qty)) && fill.qty > 0
            && e1 == AfterFill(e, taker, fill.qty) && EngineFills(e, e1, taker, limit, qty, fill)
  {
    var b := E.BookOf(e, Other(taker));
    var p := E.Best(taker, b);
    assert E.GoodLevel(b[p]);
    fill := Fill(b[p][0].id, p, Min(qty, b[p][0].qty));
    e1 := AfterFill(e, taker, fill.qty);
    E.MatchStep(taker, limit, qty, b, e.index);
    SameButBook(e, e1, taker, E.Match(taker, limit, qty - fill.qty, E.BookOf(e1, Other(taker)), e1.index));
  }

  lemma TradeTurn(os: seq<R.Order>, taker: Side, limit: nat, qty: nat, f: nat) returns (os1: seq<R.Order>)
    requires R.Positive(os) && qty > 0 && R.Pick(os, taker, limit, |os|).Some?
    requires f == Min(qty, os[R.Pick(os, taker, limit, |os|).value].qty)
    ensures var k := R.Pick(os, taker, limit, |os|).value;
            os1 == R.Drawn(os, k, f) && ReferenceFills(os, os1, taker, limit, qty, Fill(os[k].id, os[k].price, f))
  {
    os1 := R.Drawn(os, R.Pick(os, taker, limit, |os|).value, f);
    R.TradeStep(os, taker, limit, qty);
  }

  lemma SameButBook(e: E.Engine, e1: E.Engine, taker: Side, m: E.Matched)
    requires E.BookOf(e1, taker) == E.BookOf(e, taker) && e1.nextId == e.nextId && e1.sessions == e.sessions
    ensures AfterMatch(e1, taker, m) == AfterMatch(e, taker, m)
  {}

  lemma SameEngine(e: E.Engine, s: Side)
    ensures E.WithBook(e, s, E.BookOf(e, s)).(index := e.index) == e
  {}
}
