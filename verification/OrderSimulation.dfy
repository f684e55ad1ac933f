/** Command by command, engine and reference stay in agreement and answer alike. */
module OrderSimulation {
  import opened Common
  import opened Wire
  import opened OrderTypes
  import opened OrderRefinement
  import E = OrderEngine
  import R = OrderReference

  // ---- trading invents no order ---------------------------------------------------------------

  /** Positive quantity, id below n and other than `id`, arrival below a. */
  predicate Tame(o: R.Order, n: nat, a: nat, id: nat) { o.qty > 0 && o.id < n && o.id != id && o.arrival < a }

  ghost predicate AllTame(os: seq<R.Order>, n: nat, a: nat, id: nat) {
    forall k :: 0 <= k < |os| ==> Tame(os[k], n, a, id)
  }

  lemma SplicedTame(os: seq<R.Order>, k: nat, x: seq<R.Order>, n: nat, a: nat, id: nat)
    requires k < |os| && (forall i :: 0 <= i < |os| && i != k ==> Tame(os[i], n, a, id)) && AllTame(x, n, a, id)
    ensures AllTame(Spliced(os, k, x), n, a, id)
  {}

  lemma {:induction false} TradeTame(os: seq<R.Order>, taker: Side, limit: nat, qty: nat, n: nat, a: nat, id: nat)
    requires R.Positive(os) && AllTame(os, n, a, id)
    ensures AllTame(R.Trade(os, taker, limit, qty).orders, n, a, id)
    decreases qty
  {
    var k := R.Pick(os, taker, limit, |os|);
    if qty != 0 && k.Some? {
      var f := Min(qty, os[k.value].qty);
      var os1 := R.Drawn(os, k.value, f);
      assert Tame(os[k.value], n, a, id);
      DrawnSpliced(os, k.value, f);
      SplicedTame(os, k.value, LeftOf(os[k.value], f), n, a, id);
      TradeTame(os1, taker, limit, qty - f, n, a, id);
    }
  }

  // ---- resting ------------------------------------------------------------------------------------

  lemma RestBooks(e: E.Engine, os: seq<R.Order>, o: R.Order)
    requires BooksAgree(e, os)
    ensures BooksAgree(E.Rest(e, o.side, o.price, o.id, o.qty), os + [o])
  {
    var e' := E.Rest(e, o.side, o.price, o.id, o.qty);
    forall s, p: nat ensures E.LevelAt(E.BookOf(e', s), p) == LevelOf(os + [o], s, p) {
      LevelConcat(os, [o], s, p);
      LevelOfOne(o, s, p);
      assert E.LevelAt(E.BookOf(e, s), p) == LevelOf(os, s, p);
    }
  }

  ghost predicate Absent(os: seq<R.Order>, id: nat) { forall k :: 0 <= k < |os| ==> os[k].id != id }

  lemma RestIndex(ix: E.Index, os: seq<R.Order>, o: R.Order)
    requires IndexAgrees(ix, os) && Absent(os, o.id)
    ensures IndexAgrees(ix[o.id := (o.side, o.price)], os + [o])
  {
    var t := os + [o];
    forall id | id in ix[o.id := (o.side, o.price)] ensures Listed(t, id) {
      if id == o.id {
        assert t[|os|].id == id;
      } else {
        assert Listed(os, id);
        var j :| 0 <= j < |os| && os[j].id == id;
        assert t[j].id == id;
      }
    }
  }


  lemma RestAgrees(e: E.Engine, os: seq<R.Order>, o: R.Order, n: nat)
    requires Agree(e, os) && AllTame(os, n, o.arrival, o.id) && o.qty > 0
    ensures Agree(E.Rest(e, o.side, o.price, o.id, o.qty), os + [o])
  {
    RestBooks(e, os, o);
    RestIndex(e.index, os, o);
    E.RestGood(E.BookOf(e, o.side), o.price, E.Resting(o.id, o.qty));
  }

  // ---- match, then rest -----------------------------------------------------------------------------

  /** Agreement plus the counters: what holds between commands. */
  ghost predicate Same(e: E.Engine, r: R.Ref) {
    && Agree(e, r.orders) && AllTame(r.orders, r.nextId, r.arrival, r.nextId)
    && e.nextId == r.nextId && e.sessions == r.sessions
  }

  lemma ExecuteSame(e: E.Engine, r: R.Ref, id: nat, s: Side, p: nat, qty: nat)
    requires Same(e, r) && AllTame(r.orders, r.nextId, r.arrival, id) && id < r.nextId
    ensures E.Execute(e, id, s, p, qty).1 == R.Execute(r, id, s, p, qty).1
    ensures Same(E.Execute(e, id, s, p, qty).0, R.Execute(r, id, s, p, qty).0)
  {
    MatchAgrees(e, r.orders, s, p, qty);
    TradeTame(r.orders, s, p, qty, r.nextId, r.arrival, id);
    var t := R.Trade(r.orders, s, p, qty);
    if t.residual > 0 {
      var m := E.Match(s, p, qty, E.BookOf(e, Other(s)), e.index);
      RestAgrees(AfterMatch(e, s, m), t.orders, R.Order(id, s, p, t.residual, r.arrival), r.nextId);
    }
  }

  // ---- cancel and amend ---------------------------------------------------------------------------------

  /** The level of order k: those before it, itself, those after it; and where the engine finds it. */
  lemma LevelAround(e: E.Engine, os: seq<R.Order>, k: nat)
    requires Agree(e, os) && k < |os|
    ensures var o := os[k];
            var l := E.LevelAt(E.BookOf(e, o.side), o.price);
            var before := LevelOf(os[..k], o.side, o.price);
            && o.id in e.index && e.index[o.id] == (o.side, o.price)
            && l == before + [E.Resting(o.id, o.qty)] + LevelOf(os[k + 1..], o.side, o.price)
            && E.Find(l, o.id) == |before|
  {
    var o := os[k];
    var l := E.LevelAt(E.BookOf(e, o.side), o.price);
    var before := LevelOf(os[..k], o.side, o.price);
    LevelSpliced(os, k, [], o.side, o.price);
    LevelOfOne(o, o.side, o.price);
    assert l == LevelOf(os, o.side, o.price);
    assert forall j :: 0 <= j < k ==> Apart(os[j], os[k]);
    IdNotInLevel(os[..k], o.side, o.price, o.id);
    FoundAt(l, o.id, |before|);
  }

  lemma FoundAt(l: E.Level, id: nat, m: nat)
    requires m < |l| && l[m].id == id && forall j :: 0 <= j < m ==> l[j].id != id
    ensures E.Find(l, id) == m
  {
    assert !(E.Find(l, id) < m);
    assert !(m < E.Find(l, id));
  }

  lemma RemovedAgrees(e: E.Engine, os: seq<R.Order>, k: nat)
    requires Agree(e, os) && k < |os|
    ensures os[k].id in e.index && E.RemovedQty(e, os[k].id) == os[k].qty
    ensures Agree(E.Removed(e, os[k].id), Spliced(os, k, []))
  {
    LevelAround(e, os, k);
    var o := os[k];
    var b := E.BookOf(e, o.side);
    var l := E.Without(E.LevelAt(b, o.price), o.id);
    var b' := if l == [] then b - {o.price} else b[o.price := l];
    TakesOverRemoved(e, os, k, b');
    E.RemovedGood(e, o.id);
    SplicedBooks(e, os, k, [], b');
    SplicedList(os, k, []);
    SplicedIndex(e.index, os, k, []);
    SameBooks(E.WithBook(e, o.side, b'), Spliced(os, k, []), e.index - {o.id});
  }

  lemma TakesOverRemoved(e: E.Engine, os: seq<R.Order>, k: nat, b: E.Book)
    requires Agree(e, os) && k < |os|
    requires var l := E.Without(E.LevelAt(E.BookOf(e, os[k].side), os[k].price), os[k].id);
             b == if l == [] then E.BookOf(e, os[k].side) - {os[k].price} else E.BookOf(e, os[k].side)[os[k].price := l]
    ensures TakesOver(e, os, k, [], b)
  {
    LevelAround(e, os, k);
    var before := LevelOf(os[..k], os[k].side, os[k].price);
    assert E.LevelAt(b, os[k].price) == before + LevelOf(os[k + 1..], os[k].side, os[k].price);
  }

  lemma ResizedAgrees(e: E.Engine, os: seq<R.Order>, k: nat, qty: nat)
    requires Agree(e, os) && k < |os| && qty > 0
    ensures os[k].id in e.index
    ensures Agree(E.Resized(e, os[k].id, qty), os[k := os[k].(qty := qty)])
  {
    LevelAround(e, os, k);
    var o := os[k];
    var x := [o.(qty := qty)];
    var b := E.BookOf(e, o.side);
    var l := E.LevelAt(b, o.price);
    var b' := b[o.price := l[E.Find(l, o.id) := E.Resting(o.id, qty)]];
    LevelOfOne(x[0], o.side, o.price);
    assert TakesOver(e, os, k, x, b');
    E.ResizedGood(b, o.price, E.Find(l, o.id), E.Resting(o.id, qty));
    SplicedBooks(e, os, k, x, b');
    SplicedList(os, k, x);
    SplicedIndex(e.index, os, k, x);
    assert Spliced(os, k, x) == os[k := o.(qty := qty)];
  }


  /** The index locates an order exactly when the reference lists it. */
  lemma FoundInBoth(e: E.Engine, os: seq<R.Order>, id: nat)
    requires Agree(e, os)
    ensures id in e.index <==> R.Find(os, id) < |os|
  {
    if id in e.index { assert Listed(os, id); }
  }

  lemma RemovedSame(e: E.Engine, r: R.Ref, k: nat)
    requires Same(e, r) && k < |r.orders|
    ensures var o := r.orders[k];
            && o.id in e.index && e.index[o.id] == (o.side, o.price) && o.id < r.nextId
            && E.RemovedQty(e, o.id) == o.qty
    ensures Same(E.Removed(e, r.orders[k].id), r.(orders := Spliced(r.orders, k, [])))
    ensures AllTame(Spliced(r.orders, k, []), r.nextId, r.arrival, r.orders[k].id)
  {
    assert Tame(r.orders[k], r.nextId, r.arrival, r.nextId);
    RemovedAgrees(e, r.orders, k);
    SplicedTame(r.orders, k, [], r.nextId, r.arrival, r.nextId);
    forall i | 0 <= i < |r.orders| && i != k ensures Tame(r.orders[i], r.nextId, r.arrival, r.orders[k].id) {
      assert Apart(r.orders[if i < k then i else k], r.orders[if i < k then k else i]);
      assert Tame(r.orders[i], r.nextId, r.arrival, r.nextId);
    }
    SplicedTame(r.orders, k, [], r.nextId, r.arrival, r.orders[k].id);
  }

  lemma ResizedSame(e: E.Engine, r: R.Ref, k: nat, qty: nat)
    requires Same(e, r) && k < |r.orders| && qty > 0
    ensures r.orders[k].id in e.index
    ensures Same(E.Resized(e, r.orders[k].id, qty), r.(orders := r.orders[k := r.orders[k].(qty := qty)]))
  {
    ResizedAgrees(e, r.orders, k, qty);
  }

  lemma AmendInPlace(e: E.Engine, r: R.Ref, k: nat, qty: nat)
    requires Same(e, r) && k < |r.orders| && R.Find(r.orders, r.orders[k].id) == k && 0 < qty <= r.orders[k].qty
    ensures var body := Amend(r.orders[k].id, r.orders[k].price, qty);
            E.Perform(e, body).1 == R.Perform(r, body).1 && Same(E.Perform(e, body).0, R.Perform(r, body).0)
  {
    RemovedSame(e, r, k);
    ResizedSame(e, r, k, qty);
  }

  lemma AmendReplaced(e: E.Engine, r: R.Ref, k: nat, p: nat, qty: nat)
    requires Same(e, r) && k < |r.orders| && R.Find(r.orders, r.orders[k].id) == k
    requires p != r.orders[k].price || r.orders[k].qty < qty
    ensures var body := Amend(r.orders[k].id, p, qty);
            E.Perform(e, body).1 == R.Perform(r, body).1 && Same(E.Perform(e, body).0, R.Perform(r, body).0)
  {
    RemovedSame(e, r, k);
    var o := r.orders[k];
    var r1 := r.(orders := Spliced(r.orders, k, []));
    assert r1.orders == r.orders[..k] + r.orders[k + 1..];
    ExecuteSame(E.Removed(e, o.id), r1, o.id, o.side, p, qty);
    EngineReplaces(e, o.id, p, qty);
    assert R.Perform(r, Amend(o.id, p, qty)) == R.Execute(r1, o.id, o.side, p, qty);
  }

  lemma EngineReplaces(e: E.Engine, id: nat, p: nat, qty: nat)
    requires E.GoodBook(e.bids) && E.GoodBook(e.asks) && id in e.index
    requires p != e.index[id].1 || E.RemovedQty(e, id) < qty
    ensures E.GoodBook(E.Removed(e, id).bids) && E.GoodBook(E.Removed(e, id).asks)
    ensures E.Perform(e, Amend(id, p, qty)) == E.Execute(E.Removed(e, id), id, e.index[id].0, p, qty)
  {
    E.RemovedGood(e, id);
  }

  lemma AmendSame(e: E.Engine, r: R.Ref, id: nat, p: nat, qty: nat)
    requires Same(e, r) && qty > 0 && id in e.index
    ensures var body := Amend(id, p, qty);
            E.Perform(e, body).1 == R.Perform(r, body).1 && Same(E.Perform(e, body).0, R.Perform(r, body).0)
  {
    FoundInBoth(e, r.orders, id);
    var k := R.Find(r.orders, id);
    if p == r.orders[k].price && qty <= r.orders[k].qty {
      AmendInPlace(e, r, k, qty);
    } else {
      AmendReplaced(e, r, k, p, qty);
    }
  }

  lemma CancelSame(e: E.Engine, r: R.Ref, id: nat)
    requires Same(e, r) && id in e.index
    ensures E.Perform(e, Cancel(id)).1 == R.Perform(r, Cancel(id)).1
    ensures Same(E.Perform(e, Cancel(id)).0, R.Perform(r, Cancel(id)).0)
  {
    FoundInBoth(e, r.orders, id);
    var k := R.Find(r.orders, id);
    RemovedSame(e, r, k);
    assert Spliced(r.orders, k, []) == r.orders[..k] + r.orders[k + 1..];
  }

  lemma NewSame(e: E.Engine, r: R.Ref, s: Side, p: nat, qty: nat)
    requires Same(e, r)
    ensures E.Perform(e, New(s, p, qty)).1 == R.Perform(r, New(s, p, qty)).1
    ensures Same(E.Perform(e, New(s, p, qty)).0, R.Perform(r, New(s, p, qty)).0)
  {
    var e1 := e.(nextId := e.nextId + 1);
    AgreeFrame(e, e1, r.orders);
    SplitBound(r.orders, r.nextId, r.arrival);
    var r1 := r.(nextId := r.nextId + 1);
    ExecuteSame(e1, r1, e.nextId, s, p, qty);
    assert R.Perform(r, New(s, p, qty)) == R.Execute(r1, r.nextId, s, p, qty);
    assert E.Perform(e, New(s, p, qty)) == E.Execute(e1, e.nextId, s, p, qty);
  }

  lemma SplitBound(os: seq<R.Order>, n: nat, a: nat)
    requires AllTame(os, n, a, n)
    ensures AllTame(os, n + 1, a, n) && AllTame(os, n + 1, a, n + 1)
  {}

  lemma PerformSame(e: E.Engine, r: R.Ref, body: Body)
    requires Same(e, r)
    requires body.Amend? ==> body.qty > 0
    ensures E.Perform(e, body).1 == R.Perform(r, body).1
    ensures Same(E.Perform(e, body).0, R.Perform(r, body).0)
  {
    match body
    case New(s, p, qty) => NewSame(e, r, s, p, qty);
    case Cancel(id) =>
      FoundInBoth(e, r.orders, id);
      if id in e.index { CancelSame(e, r, id); }
    case Amend(id, p, qty) =>
      FoundInBoth(e, r.orders, id);
      if id in e.index { AmendSame(e, r, id, p, qty); }
  }

  /** Every command, well-formed or not: same reply, and still in agreement. */
  lemma ApplySame(e: E.Engine, r: R.Ref, cmd: Bytes)
    requires Same(e, r)
    ensures E.Apply(e, cmd).1 == R.Apply(r, cmd).1
    ensures Same(E.Apply(e, cmd).0, R.Apply(r, cmd).0)
  {
    var h := DecodeHeader(cmd);
    if h.Some? && Cached(e.sessions, h.value).None? && DecodeBody(cmd).Some? {
      var body := DecodeBody(cmd).value;
      PerformSame(e, r, body);
      var (e1, reply) := E.Perform(e, body);
      AgreeFrame(e1, e1.(sessions := Recorded(e.sessions, h.value, reply)), R.Perform(r, body).0.orders);
    }
  }
}
