/** Price-time priority: matching is the greedy walk along one queue, best price first and, within a
    price, oldest first; and the book never ends up crossed. */
module OrderPriority {
  import opened Common
  import opened OrderTypes
  import opened OrderEngine

  datatype Maker = Maker(id: nat, price: nat, qty: nat)

  function Makers(l: Level, p: nat): (q: seq<Maker>)
    ensures |q| == |l|
  {
    if l == [] then [] else [Maker(l[0].id, p, l[0].qty)] + Makers(l[1..], p)
  }

  lemma {:induction false} MakersAt(l: Level, p: nat, k: nat)
    requires k < |l|
    ensures Makers(l, p)[k] == Maker(l[k].id, p, l[k].qty)
  {
    if k > 0 { MakersAt(l[1..], p, k - 1); }
  }

  lemma SmallerBook(b: Book, p: nat)
    requires p in b
    ensures |b - {p}| < |b|
  {
    assert (b - {p}).Keys < b.Keys;
    assert b.Keys == (b - {p}).Keys + {p};
  }

  /** One side of the book in the order a taker trades with it. */
  ghost function Queue(taker: Side, b: Book): seq<Maker>
    decreases |b|
  {
    if b == map[] then []
    else
      var p := Best(taker, b);
      SmallerBook(b, p);
      Makers(b[p], p) + Queue(taker, b - {p})
  }

  // ---- what the queue is -----------------------------------------------------------------------------

  predicate NotWorse(taker: Side, p: nat, q: nat) { p == q || Better(taker, p, q) }

  lemma {:induction false} QueuePrices(taker: Side, b: Book, i: nat)
    requires i < |Queue(taker, b)|
    ensures Queue(taker, b)[i].price in b
    decreases |b|
  {
    var p := Best(taker, b);
    SmallerBook(b, p);
    if i >= |b[p]| { QueuePrices(taker, b - {p}, i - |b[p]|); } else { MakersAt(b[p], p, i); }
  }

  /** Prices only get worse along the queue. */
  lemma {:induction false} QueueSorted(taker: Side, b: Book, i: nat, j: nat)
    requires i < j < |Queue(taker, b)|
    ensures NotWorse(taker, Queue(taker, b)[i].price, Queue(taker, b)[j].price)
    decreases |b|
  {
    var p := Best(taker, b);
    SmallerBook(b, p);
    if i >= |b[p]| {
      QueueSorted(taker, b - {p}, i - |b[p]|, j - |b[p]|);
    } else {
      MakersAt(b[p], p, i);
      if j < |b[p]| { MakersAt(b[p], p, j); } else { QueuePrices(taker, b - {p}, j - |b[p]|); }
    }
  }

  /** Each level appears in the queue in one piece, in its own first-in-first-out order. */
  lemma {:induction false} QueueHolds(taker: Side, b: Book, p: nat) returns (at: nat)
    requires p in b
    ensures at + |b[p]| <= |Queue(taker, b)|
    ensures Queue(taker, b)[at..at + |b[p]|] == Makers(b[p], p)
    decreases |b|
  {
    var best := Best(taker, b);
    SmallerBook(b, best);
    var q := Queue(taker, b);
    var rest := Queue(taker, b - {best});
    if p == best {
      at := 0;
      assert q[..|b[p]|] == Makers(b[p], p);
    } else {
      var k := QueueHolds(taker, b - {best}, p);
      at := k + |b[best]|;
      assert q[at..at + |b[p]|] == rest[k..k + |b[p]|];
    }
  }

  // ---- the greedy walk ---------------------------------------------------------------------------------

  datatype Consumed = Consumed(fills: seq<Fill>, rest: seq<Maker>, residual: nat)

  function Consume(taker: Side, limit: nat, qty: nat, q: seq<Maker>): Consumed {
    if qty == 0 || q == [] || !Crosses(taker, q[0].price, limit) then Consumed([], q, qty)
    else if qty < q[0].qty then
      Consumed([Fill(q[0].id, q[0].price, qty)], [Maker(q[0].id, q[0].price, q[0].qty - qty)] + q[1..], 0)
    else
      var c := Consume(taker, limit, qty - q[0].qty, q[1..]);
      c.(fills := [Fill(q[0].id, q[0].price, q[0].qty)] + c.fills)
  }

  lemma BestIs(taker: Side, b: Book, p: nat)
    requires IsBest(taker, b, p)
    ensures Best(taker, b) == p
  {}

  lemma QueueStep(taker: Side, b: Book, p: nat, l: Level)
    requires b != map[] && p == Best(taker, b) && l != []
    ensures Queue(taker, b[p := l]) == Makers(l, p) + Queue(taker, b - {p})
  {
    var b' := b[p := l];
    BestIs(taker, b', p);
    SmallerBook(b', p);
    assert b' - {p} == b - {p};
  }

  /** What is left of the head of the queue after it gives up f. */
  function Reduced(m: Maker, f: nat): seq<Maker>
    requires f <= m.qty
  {
    if f < m.qty then [Maker(m.id, m.price, m.qty - f)] else []
  }

  /** The queue begins with the front of the best level. */
  lemma QueueFront(taker: Side, b: Book)
    requires b != map[] && b[Best(taker, b)] != []
    ensures var p := Best(taker, b);
            Queue(taker, b) == [Maker(b[p][0].id, p, b[p][0].qty)] + (Makers(b[p][1..], p) + Queue(taker, b - {p}))
  {
    var p := Best(taker, b);
    SmallerBook(b, p);
    Associative([Maker(b[p][0].id, p, b[p][0].qty)], Makers(b[p][1..], p), Queue(taker, b - {p}));
  }

  lemma Associative(a: seq<Maker>, b: seq<Maker>, c: seq<Maker>)
    ensures (a + b) + c == a + (b + c)
  {}

  lemma TakenRest(taker: Side, b: Book, p: nat, f: nat)
    requires b != map[] && p == Best(taker, b) && b[p] != [] && f <= b[p][0].qty
    ensures Queue(taker, Taken(b, p, f))
            == Reduced(Maker(b[p][0].id, p, b[p][0].qty), f) + (Makers(b[p][1..], p) + Queue(taker, b - {p}))
  {
    var l := b[p];
    if f < l[0].qty {
      var l' := [Resting(l[0].id, l[0].qty - f)] + l[1..];
      QueueStep(taker, b, p, l');
      assert l'[1..] == l[1..];
      Associative([Maker(l[0].id, p, l[0].qty - f)], Makers(l[1..], p), Queue(taker, b - {p}));
    } else if |l| > 1 {
      QueueStep(taker, b, p, l[1..]);
    } else {
      assert Makers(l[1..], p) == [];
    }
  }

  /** A fill shortens or removes the head of the queue and nothing else. */
  lemma TakenQueue(taker: Side, b: Book, f: nat)
    requires b != map[] && GoodBook(b) && f <= b[Best(taker, b)][0].qty
    ensures var q := Queue(taker, b);
            var p := Best(taker, b);
            && q != [] && q[0] == Maker(b[p][0].id, p, b[p][0].qty)
            && Queue(taker, Taken(b, p, f)) == Reduced(q[0], f) + q[1..]
  {
    var p := Best(taker, b);
    assert GoodLevel(b[p]);
    QueueFront(taker, b);
    TakenRest(taker, b, p, f);
  }

  /** The match loop computes the greedy walk: same fills, same residual, and it leaves exactly the
      rest of the queue behind. */
  lemma {:induction false} MatchIsGreedy(taker: Side, limit: nat, qty: nat, b: Book, ix: Index)
    requires GoodBook(b)
    ensures var m := Match(taker, limit, qty, b, ix);
            GoodBook(m.book)
            && Consume(taker, limit, qty, Queue(taker, b)) == Consumed(m.fills, Queue(taker, m.book), m.residual)
    decreases qty
  {
    if qty != 0 && b != map[] {
      var p := Best(taker, b);
      assert GoodLevel(b[p]);
      var maker := b[p][0];
      var f := Min(qty, maker.qty);
      TakenQueue(taker, b, f);
      if Crosses(taker, p, limit) {
        TakenGood(b, p, f);
        var q := Queue(taker, b);
        MatchIsGreedy(taker, limit, qty - f, Taken(b, p, f), if f == maker.qty then ix - {maker.id} else ix);
        ConsumeStep(taker, limit, qty, q);
      }
    }
  }

  /** One fill, then the walk goes on with the reduced queue. */
  lemma ConsumeStep(taker: Side, limit: nat, qty: nat, q: seq<Maker>)
    requires qty > 0 && q != [] && q[0].qty > 0 && Crosses(taker, q[0].price, limit)
    ensures var f := Min(qty, q[0].qty);
            var c := Consume(taker, limit, qty - f, Reduced(q[0], f) + q[1..]);
            Consume(taker, limit, qty, q) == c.(fills := [Fill(q[0].id, q[0].price, f)] + c.fills)
  {
    if qty >= q[0].qty { assert [] + q[1..] == q[1..]; }
  }

  // ---- laws of the walk -----------------------------------------------------------------------------------

  function Filled(fs: seq<Fill>): nat { if fs == [] then 0 else fs[0].qty + Filled(fs[1..]) }

  function Volume(q: seq<Maker>): nat { if q == [] then 0 else q[0].qty + Volume(q[1..]) }

  /** Fill i trades with queue element i at that maker's own price, within the limit. */
  predicate FillMatches(taker: Side, limit: nat, f: Fill, m: Maker) {
    f.maker == m.id && f.price == m.price && Crosses(taker, m.price, limit) && 0 < f.qty <= m.qty
  }

  /** Fills run along a prefix of the queue; every one but the last exhausts its maker; the walk stops
      with quantity left only at the end of the queue or at the first price outside the limit. */
  lemma ConsumeLaws(taker: Side, limit: nat, qty: nat, q: seq<Maker>)
    requires forall k :: 0 <= k < |q| ==> q[k].qty > 0
    ensures InOrder(taker, limit, q, Consume(taker, limit, qty, q))
    ensures Filled(Consume(taker, limit, qty, q).fills) + Consume(taker, limit, qty, q).residual == qty
    ensures Volume(q) == Volume(Consume(taker, limit, qty, q).rest) + Filled(Consume(taker, limit, qty, q).fills)
  {
    ConsumeInOrder(taker, limit, qty, q);
    ConsumeBalances(taker, limit, qty, q);
  }

  /** Fills follow the queue from its front; all but the last exhaust their maker; quantity is left over only
      when nothing in reach remains. */
  ghost predicate InOrder(taker: Side, limit: nat, q: seq<Maker>, c: Consumed) {
    && |c.fills| <= |q|
    && (forall i :: 0 <= i < |c.fills| ==> FillMatches(taker, limit, c.fills[i], q[i]))
    && (forall i :: 0 <= i < |c.fills| - 1 ==> c.fills[i].qty == q[i].qty)
    && (c.residual > 0 ==>
          && (forall i :: 0 <= i < |c.fills| ==> c.fills[i].qty == q[i].qty)
          && c.rest == q[|c.fills|..]
          && (c.rest == [] || !Crosses(taker, c.rest[0].price, limit)))
  }

  lemma {:induction false} ConsumeInOrder(taker: Side, limit: nat, qty: nat, q: seq<Maker>)
    requires forall k :: 0 <= k < |q| ==> q[k].qty > 0
    ensures InOrder(taker, limit, q, Consume(taker, limit, qty, q))
  {
    if !(qty == 0 || q == [] || !Crosses(taker, q[0].price, limit)) && qty >= q[0].qty {
      ConsumeInOrder(taker, limit, qty - q[0].qty, q[1..]);
      InOrderCons(taker, limit, q, Consume(taker, limit, qty - q[0].qty, q[1..]));
    }
  }

  lemma InOrderCons(taker: Side, limit: nat, q: seq<Maker>, c: Consumed)
    requires q != [] && q[0].qty > 0 && Crosses(taker, q[0].price, limit) && InOrder(taker, limit, q[1..], c)
    ensures InOrder(taker, limit, q, c.(fills := [Fill(q[0].id, q[0].price, q[0].qty)] + c.fills))
  {
    var fs := [Fill(q[0].id, q[0].price, q[0].qty)] + c.fills;
    assert forall i :: 1 <= i < |fs| ==> fs[i] == c.fills[i - 1] && q[i] == q[1..][i - 1];
    assert q[1..][|c.fills|..] == q[|fs|..];
  }

  lemma {:induction false} ConsumeBalances(taker: Side, limit: nat, qty: nat, q: seq<Maker>)
    ensures Filled(Consume(taker, limit, qty, q).fills) + Consume(taker, limit, qty, q).residual == qty
    ensures Volume(q) == Volume(Consume(taker, limit, qty, q).rest) + Filled(Consume(taker, limit, qty, q).fills)
  {
    if qty == 0 || q == [] || !Crosses(taker, q[0].price, limit) {
    } else if qty < q[0].qty {
      assert [Fill(q[0].id, q[0].price, qty)][1..] == [];
    } else {
      ConsumeBalances(taker, limit, qty - q[0].qty, q[1..]);
      var c := Consume(taker, limit, qty - q[0].qty, q[1..]);
      assert ([Fill(q[0].id, q[0].price, q[0].qty)] + c.fills)[1..] == c.fills;
    }
  }

  // ---- never crossed ------------------------------------------------------------------------------------------

  /** Matching only removes prices, and with quantity left over nothing in reach remains. */
  lemma {:induction false} MatchLeaves(taker: Side, limit: nat, qty: nat, b: Book, ix: Index)
    requires GoodBook(b)
    ensures var m := Match(taker, limit, qty, b, ix);
            && GoodBook(m.book) && m.book.Keys <= b.Keys
            && (m.residual > 0 ==> forall p :: p in m.book ==> !Crosses(taker, p, limit))
    decreases qty
  {
    if qty != 0 && b != map[] && Crosses(taker, Best(taker, b), limit) {
      var p := Best(taker, b);
      assert GoodLevel(b[p]);
      var maker := b[p][0];
      var f := Min(qty, maker.qty);
      TakenGood(b, p, f);
      MatchLeaves(taker, limit, qty - f, Taken(b, p, f), if f == maker.qty then ix - {maker.id} else ix);
    }
  }

  ghost predicate Good(e: Engine) { GoodBook(e.bids) && GoodBook(e.asks) }

  lemma ExecuteUncrossed(e: Engine, id: nat, s: Side, p: nat, qty: nat)
    requires Good(e) && Uncrossed(e)
    ensures Good(Execute(e, id, s, p, qty).0) && Uncrossed(Execute(e, id, s, p, qty).0)
  {
    MatchLeaves(s, p, qty, BookOf(e, Other(s)), e.index);
    var m := Match(s, p, qty, BookOf(e, Other(s)), e.index);
    if m.residual > 0 { RestGood(BookOf(e, s), p, Resting(id, m.residual)); }
  }

  lemma RemovedUncrossed(e: Engine, id: nat)
    requires Good(e) && Uncrossed(e) && id in e.index
    ensures Good(Removed(e, id)) && Uncrossed(Removed(e, id))
  {
    RemovedGood(e, id);
  }

  lemma ResizedUncrossed(e: Engine, id: nat, qty: nat)
    requires Good(e) && Uncrossed(e) && id in e.index && qty > 0
    ensures Good(Resized(e, id, qty)) && Uncrossed(Resized(e, id, qty))
  {
    var (s, p) := e.index[id];
    var l := LevelAt(BookOf(e, s), p);
    if Find(l, id) < |l| { ResizedGood(BookOf(e, s), p, Find(l, id), Resting(id, qty)); }
  }
}
