/** The production engine: two ordered maps of first-in-first-out levels, updated in place. Every
    method is proved to compute the step of the same name in `OrderEngine`. */
module OrderBook {
  import opened Common
  import opened Wire
  import opened OrderTypes
  import Sessions
  import opened OrderEngine
  import opened OrderPriority

  /** The end of the ordered map a taker reaches first. */
  method BestPrice(taker: Side, b: Book) returns (p: nat)
    requires b != map[]
    ensures p == Best(taker, b)
  {
    p :| p in b;
    var todo := b.Keys - {p};
    while todo != {}
      invariant todo <= b.Keys && p in b && p !in todo
      invariant forall q :: q in b && q != p && q !in todo ==> Better(taker, p, q)
      decreases |todo|
    {
      var q :| q in todo;
      todo := todo - {q};
      if Better(taker, q, p) { p := q; }
    }
    BestIs(taker, b, p);
  }

  /** Fills made so far, followed by those still to come. */
  ghost function After(fs: seq<Fill>, m: Matched): Matched { m.(fills := fs + m.fills) }

  lemma MatchStep(taker: Side, limit: nat, qty: nat, b: Book, ix: Index, fs: seq<Fill>)
    requires GoodBook(b) && qty > 0 && b != map[] && Crosses(taker, Best(taker, b), limit)
    ensures var p := Best(taker, b);
            && b[p] != [] && b[p][0].qty > 0
            && var maker := b[p][0];
               var f := Min(qty, maker.qty);
               && GoodBook(Taken(b, p, f))
               && After(fs, OrderEngine.Match(taker, limit, qty, b, ix))
                  == After(fs + [Fill(maker.id, p, f)],
                           OrderEngine.Match(taker, limit, qty - f, Taken(b, p, f),
                                             if f == maker.qty then ix - {maker.id} else ix))
  {
    var p := Best(taker, b);
    assert GoodLevel(b[p]);
    var f := Min(qty, b[p][0].qty);
    TakenGood(b, p, f);
    var m := OrderEngine.Match(taker, limit, qty - f, Taken(b, p, f),
                               if f == b[p][0].qty then ix - {b[p][0].id} else ix);
    assert fs + ([Fill(b[p][0].id, p, f)] + m.fills) == (fs + [Fill(b[p][0].id, p, f)]) + m.fills;
  }

  /** The front order of a level gives up f; an order or level left empty goes. */
  method TakeFront(b: Book, p: nat, f: nat) returns (b': Book)
    requires p in b && b[p] != [] && f <= b[p][0].qty
    ensures b' == Taken(b, p, f)
  {
    var level := b[p];
    if f == level[0].qty {
      level := level[1..];
      b' := if level == [] then b - {p} else b[p := level];
    } else {
      b' := b[p := [Resting(level[0].id, level[0].qty - f)] + level[1..]];
    }
  }

  /** One turn of the matching loop: stop, or fill once from the front of the best level. */
  method FillOnce(taker: Side, limit: nat, qty: nat, b: Book, ix: Index, fs: seq<Fill>)
    returns (stop: bool, qty': nat, b': Book, ix': Index, fs': seq<Fill>)
    requires GoodBook(b) && qty > 0 && b != map[]
    ensures GoodBook(b') && (stop || qty' < qty)
    ensures stop ==> OrderEngine.Match(taker, limit, qty, b, ix) == Matched(b, ix, [], qty)
                     && (qty', b', ix', fs') == (qty, b, ix, fs)
    ensures After(fs', OrderEngine.Match(taker, limit, qty', b', ix'))
            == After(fs, OrderEngine.Match(taker, limit, qty, b, ix))
  {
    var price := BestPrice(taker, b);
    if !Crosses(taker, price, limit) { return true, qty, b, ix, fs; }
    MatchStep(taker, limit, qty, b, ix, fs);
    var maker := b[price][0];
    var f := if qty < maker.qty then qty else maker.qty;
    b' := TakeFront(b, price, f);
    return false, qty - f, b', if f == maker.qty then ix - {maker.id} else ix, fs + [Fill(maker.id, price, f)];
  }

  class OrderBook {
    var bids: Book
    var asks: Book
    var index: Index
    var nextId: nat
    var sessions: map<nat, Session>

    ghost function View(): Engine
      reads this
    {
      Engine(bids, asks, index, nextId, sessions)
    }

    ghost predicate Valid()
      reads this
    {
      Good(View())
    }

    constructor ()
      ensures Valid() && View() == Empty
    {
      bids, asks, index, nextId, sessions := map[], map[], map[], 1, map[];
    }

    method SetBook(s: Side, b: Book)
      modifies this
      ensures View() == WithBook(old(View()), s, b)
    {
      if s.Bid? { bids := b; } else { asks := b; }
    }

    function BookFor(s: Side): (b: Book)
      reads this
      ensures b == BookOf(View(), s)
    {
      if s.Bid? then bids else asks
    }

    /** Trade against the best opposite level's oldest order until nothing is left or nothing crosses. */
    method Match(taker: Side, limit: nat, qty: nat) returns (residual: nat, fills: seq<Fill>)
      requires Valid()
      modifies this
      ensures Valid()
      ensures var m := OrderEngine.Match(taker, limit, qty, old(BookFor(Other(taker))), old(index));
              && residual == m.residual && fills == m.fills
              && View() == WithBook(old(View()), Other(taker), m.book).(index := m.index)
    {
      residual, fills := qty, [];
      var opposite, stop := BookFor(Other(taker)), false;
      ghost var goal := OrderEngine.Match(taker, limit, qty, opposite, index);
      while !stop && residual > 0 && opposite != map[]
        invariant GoodBook(opposite) && View() == old(View()).(index := index)
        invariant goal == After(fills, OrderEngine.Match(taker, limit, residual, opposite, index))
        invariant stop ==> OrderEngine.Match(taker, limit, residual, opposite, index)
                           == Matched(opposite, index, [], residual)
        decreases !stop, residual
      {
        stop, residual, opposite, index, fills := FillOnce(taker, limit, residual, opposite, index, fills);
      }
      assert OrderEngine.Match(taker, limit, residual, opposite, index) == Matched(opposite, index, [], residual);
      SetBook(Other(taker), opposite);
    }

    method Rest(s: Side, p: nat, id: nat, qty: nat)
      requires Valid() && qty > 0
      modifies this
      ensures Valid() && View() == OrderEngine.Rest(old(View()), s, p, id, qty)
    {
      var book := BookFor(s);
      RestGood(book, p, Resting(id, qty));
      SetBook(s, book[p := (if p in book then book[p] else []) + [Resting(id, qty)]]);
      index := index[id := (s, p)];
    }

    /** Scan one level for an order. */
    static method Locate(l: Level, id: nat) returns (k: nat)
      ensures k == Find(l, id)
    {
      k := 0;
      while k < |l| && l[k].id != id
        invariant k <= |l| && forall j :: 0 <= j < k ==> l[j].id != id
      {
        k := k + 1;
      }
      assert !(k < Find(l, id)) && !(Find(l, id) < k);
    }

    method Remove(id: nat) returns (qty: nat)
      requires Valid() && id in index
      modifies this
      ensures Valid() && View() == Removed(old(View()), id)
      ensures qty == RemovedQty(old(View()), id)
    {
      RemovedGood(View(), id);
      var (s, p) := index[id];
      var book := BookFor(s);
      var level := if p in book then book[p] else [];
      var k := Locate(level, id);
      qty := 0;
      if k < |level| {
        qty := level[k].qty;
        level := level[..k] + level[k + 1..];
      }
      SetBook(s, if level == [] then book - {p} else book[p := level]);
      index := index - {id};
    }

    /** Match, then rest what is left over. */
    method Execute(id: nat, s: Side, p: nat, qty: nat) returns (r: Reply)
      requires Valid()
      modifies this
      ensures Valid()
      ensures (View(), r) == OrderEngine.Execute(old(View()), id, s, p, qty)
    {
      var residual, fills := Match(s, p, qty);
      if residual > 0 { Rest(s, p, id, residual); }
      r := Done(id, residual, fills);
    }

    method AmendOrder(id: nat, p: nat, qty: nat) returns (r: Reply)
      requires Valid() && qty > 0
      modifies this
      ensures Valid()
      ensures (View(), r) == Perform(old(View()), Amend(id, p, qty))
    {
      if id !in index { return Rejected; }
      var (s, price) := index[id];
      if p == price {
        var book := BookFor(s);
        var level := if price in book then book[price] else [];
        var k := Locate(level, id);
        if qty <= (if k < |level| then level[k].qty else 0) {
          ResizedKeepsGood(View(), id, qty);
          if k < |level| { SetBook(s, book[price := level[k := Resting(id, qty)]]); }
          return Done(id, qty, []);
        }
      }
      RemovedGood(View(), id);
      var _ := Remove(id);
      r := Execute(id, s, p, qty);
    }

    method CancelOrder(id: nat) returns (r: Reply)
      requires Valid()
      modifies this
      ensures Valid()
      ensures (View(), r) == Perform(old(View()), Cancel(id))
    {
      if id !in index { return Rejected; }
      var removed := Remove(id);
      r := Done(id, removed, []);
    }

    method NewOrder(s: Side, p: nat, qty: nat) returns (r: Reply)
      requires Valid()
      modifies this
      ensures Valid()
      ensures (View(), r) == Perform(old(View()), New(s, p, qty))
    {
      var id := nextId;
      nextId := nextId + 1;
      r := Execute(id, s, p, qty);
    }

    /** A well-formed command that is not a duplicate. */
    method Run(body: Body) returns (r: Reply)
      requires Valid() && (body.Amend? ==> body.qty > 0)
      modifies this
      ensures Valid()
      ensures (View(), r) == Perform(old(View()), body)
    {
      match body {
        case New(s, p, qty) => r := NewOrder(s, p, qty);
        case Cancel(id) => r := CancelOrder(id);
        case Amend(id, p, qty) => r := AmendOrder(id, p, qty);
      }
    }

    /** One committed command: a duplicate answers from the session table, a malformed one changes
        nothing and is not remembered. */
    method Apply(cmd: Bytes) returns (r: Reply)
      requires Valid()
      modifies this
      ensures Valid()
      ensures (View(), r) == OrderEngine.Apply(old(View()), cmd)
    {
      var header := DecodeHeader(cmd);
      if header.None? { return Malformed; }
      var h := header.value;
      if h.clientId != 0 && h.clientId in sessions && h.seqNo <= sessions[h.clientId].lastSeq {
        return sessions[h.clientId].lastReply;
      }
      var body := DecodeBody(cmd);
      if body.None? { return Malformed; }
      r := Run(body.value);
      SessionsKept(old(View()), body.value);
      if h.clientId != 0 { sessions := sessions[h.clientId := Sessions.Session(h.seqNo, r)]; }
    }
  }

  lemma ExecuteKeepsSessions(e: Engine, id: nat, s: Side, p: nat, qty: nat)
    requires Good(e)
    ensures Execute(e, id, s, p, qty).0.sessions == e.sessions
  {}

  lemma SessionsKept(e: Engine, body: Body)
    requires Good(e)
    ensures Perform(e, body).0.sessions == e.sessions
  {
    match body
    case New(s, p, qty) => ExecuteKeepsSessions(e.(nextId := e.nextId + 1), e.nextId, s, p, qty);
    case Cancel(_) =>
    case Amend(id, p, qty) =>
      if id in e.index {
        RemovedGood(e, id);
        ExecuteKeepsSessions(Removed(e, id), id, e.index[id].0, p, qty);
      }
  }

  lemma ResizedKeepsGood(e: Engine, id: nat, qty: nat)
    requires Good(e) && id in e.index && qty > 0
    ensures Good(Resized(e, id, qty))
  {
    var (s, p) := e.index[id];
    var l := LevelAt(BookOf(e, s), p);
    if Find(l, id) < |l| { ResizedGood(BookOf(e, s), p, Find(l, id), Resting(id, qty)); }
  }
}
