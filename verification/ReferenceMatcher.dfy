/** The flat reference matcher, updated in place: one list of orders, scanned for every fill. */
module ReferenceMatcher {
  import opened Common
  import opened Wire
  import opened OrderTypes
  import Sessions
  import opened OrderReference

  /** Linear scan for the preferred crossing order. */
  method BestOrder(os: seq<Order>, taker: Side, limit: nat) returns (best: Option<nat>)
    ensures best == Pick(os, taker, limit, |os|)
  {
    best := None;
    for i := 0 to |os|
      invariant best == Pick(os, taker, limit, i)
    {
      if os[i].side != taker && Crosses(taker, os[i].price, limit) {
        if best.None? || Preferred(taker, os[i], os[best.value]) { best := Some(i); }
      }
    }
  }

  ghost function After(fs: seq<Fill>, t: Traded): Traded { t.(fills := fs + t.fills) }

  lemma AfterStep(fs: seq<Fill>, f: Fill, t: Traded)
    ensures After(fs, t.(fills := [f] + t.fills)) == After(fs + [f], t)
  {
    assert fs + ([f] + t.fills) == (fs + [f]) + t.fills;
  }

  method Reduce(os: seq<Order>, k: nat, f: nat) returns (t: seq<Order>)
    requires k < |os| && f <= os[k].qty
    ensures t == Drawn(os, k, f)
  {
    if f == os[k].qty {
      t := os[..k] + os[k + 1..];
    } else {
      t := os[k := os[k].(qty := os[k].qty - f)];
    }
  }

  /** One turn of the trading loop: stop, or fill once from the best order. */
  method FillOnce(os: seq<Order>, s: Side, p: nat, qty: nat, fs: seq<Fill>)
    returns (stop: bool, os': seq<Order>, qty': nat, fs': seq<Fill>)
    requires Positive(os) && qty > 0
    ensures Positive(os') && (stop || qty' < qty)
    ensures stop ==> Trade(os, s, p, qty) == Traded(os, [], qty) && (os', qty', fs') == (os, qty, fs)
    ensures After(fs', Trade(os', s, p, qty')) == After(fs, Trade(os, s, p, qty))
  {
    var best := BestOrder(os, s, p);
    if best.None? { return true, os, qty, fs; }
    TradeStep(os, s, p, qty);
    var maker := os[best.value];
    var f := if qty < maker.qty then qty else maker.qty;
    os' := Reduce(os, best.value, f);
    AfterStep(fs, Fill(maker.id, maker.price, f), Trade(os', s, p, qty - f));
    return false, os', qty - f, fs + [Fill(maker.id, maker.price, f)];
  }

  lemma SessionsKept(r: Ref, body: Body)
    requires Positive(r.orders)
    ensures Perform(r, body).0.sessions == r.sessions
  {}

  class ReferenceMatcher {
    var book: seq<Order>
    var nextId: nat
    var arrival: nat
    var sessions: map<nat, Session>

    ghost function View(): Ref
      reads this
    {
      Ref(book, nextId, arrival, sessions)
    }

    ghost predicate Valid()
      reads this
    {
      Positive(book)
    }

    constructor ()
      ensures Valid() && View() == Fresh
    {
      book, nextId, arrival, sessions := [], 1, 0, map[];
    }

    method Locate(id: nat) returns (k: nat)
      ensures k == Find(book, id)
    {
      k := 0;
      while k < |book| && book[k].id != id
        invariant k <= |book| && forall j :: 0 <= j < k ==> book[j].id != id
      {
        k := k + 1;
      }
      assert !(k < Find(book, id)) && !(Find(book, id) < k);
    }

    /** Fill from the best order, again and again, until nothing is left or nothing crosses. */
    method Match(s: Side, p: nat, quantity: nat) returns (qty: nat, fills: seq<Fill>)
      requires Valid()
      modifies this`book
      ensures Valid()
      ensures Traded(book, fills, qty) == Trade(old(book), s, p, quantity)
    {
      qty, fills := quantity, [];
      var stop := false;
      ghost var goal := Trade(book, s, p, quantity);
      while !stop && qty > 0
        invariant Valid() && goal == After(fills, Trade(book, s, p, qty))
        invariant stop ==> Trade(book, s, p, qty) == Traded(book, [], qty)
        decreases !stop, qty
      {
        stop, book, qty, fills := FillOnce(book, s, p, qty, fills);
      }
      assert Trade(book, s, p, qty) == Traded(book, [], qty);
    }

    method Execute(id: nat, s: Side, p: nat, quantity: nat) returns (r: Reply)
      requires Valid()
      modifies this
      ensures Valid()
      ensures (View(), r) == OrderReference.Execute(old(View()), id, s, p, quantity)
    {
      var qty, fills := Match(s, p, quantity);
      r := Done(id, qty, fills);
      if qty > 0 {
        book := book + [Order(id, s, p, qty, arrival)];
        arrival := arrival + 1;
      }
    }

    method NewOrder(s: Side, p: nat, qty: nat) returns (r: Reply)
      requires Valid()
      modifies this
      ensures Valid()
      ensures (View(), r) == Perform(old(View()), New(s, p, qty))
    {
      var id := nextId;
      nextId := nextId + 1;
      r := Execute(id, s, p, qty);
    }

    method CancelOrder(id: nat) returns (r: Reply)
      requires Valid()
      modifies this
      ensures Valid()
      ensures (View(), r) == Perform(old(View()), Cancel(id))
    {
      var k := Locate(id);
      if k == |book| { return Rejected; }
      r := Done(id, book[k].qty, []);
      book := book[..k] + book[k + 1..];
    }

    method AmendOrder(id: nat, p: nat, qty: nat) returns (r: Reply)
      requires Valid() && qty > 0
      modifies this
      ensures Valid()
      ensures (View(), r) == Perform(old(View()), Amend(id, p, qty))
    {
      var k := Locate(id);
      if k == |book| { return Rejected; }
      if p == book[k].price && qty <= book[k].qty {
        book := book[k := book[k].(qty := qty)];
        return Done(id, qty, []);
      }
      var side := book[k].side;
      book := book[..k] + book[k + 1..];
      r := Execute(id, side, p, qty);
    }

    method Run(body: Body) returns (r: Reply)
      requires Valid() && (body.Amend? ==> body.qty > 0)
      modifies this
      ensures Valid()
      ensures (View(), r) == Perform(old(View()), body)
    {
      match body {
        case New(s, p, qty) => r := NewOrder(s, p, qty);
        case Cancel(id) => r := CancelOrder(id);
        case Amend(id, p, qty) => r := AmendOrder(id, p, qty);
      }
    }

    method Apply(cmd: Bytes) returns (r: Reply)
      requires Valid()
      modifies this
      ensures Valid()
      ensures (View(), r) == OrderReference.Apply(old(View()), cmd)
    {
      var header := DecodeHeader(cmd);
      if header.None? { return Malformed; }
      var h := header.value;
      if h.clientId != 0 && h.clientId in sessions && h.seqNo <= sessions[h.clientId].lastSeq {
        return sessions[h.clientId].lastReply;
      }
      var body := DecodeBody(cmd);
      if body.None? { return Malformed; }
      r := Run(body.value);
      SessionsKept(old(View()), body.value);
      if h.clientId != 0 { sessions := sessions[h.clientId := Sessions.Session(h.seqNo, r)]; }
    }
  }
}
