/** Nothing is lost or made in trading: what a command brings, rests, trades or takes away balances. */
module OrderConservation {
  import opened Common
  import opened OrderTypes
  import opened OrderRefinement
  import P = OrderPriority
  import R = OrderReference

  function Volume(os: seq<R.Order>): nat { if os == [] then 0 else os[0].qty + Volume(os[1..]) }

  lemma {:induction false} VolumeConcat(a: seq<R.Order>, b: seq<R.Order>)
    ensures Volume(a + b) == Volume(a) + Volume(b)
  {
    if a == [] {
      assert a + b == b;
    } else {
      assert (a + b)[1..] == a[1..] + b;
      VolumeConcat(a[1..], b);
    }
  }

  lemma VolumeSpliced(os: seq<R.Order>, k: nat, x: seq<R.Order>)
    requires k < |os|
    ensures Volume(Spliced(os, k, x)) + os[k].qty == Volume(os) + Volume(x)
  {
    VolumeConcat(os[..k] + x, os[k + 1..]);
    VolumeConcat(os[..k], x);
    VolumeConcat(os[..k] + [os[k]], os[k + 1..]);
    VolumeConcat(os[..k], [os[k]]);
    assert os[..k] + [os[k]] + os[k + 1..] == os;
    assert [os[k]][1..] == [];
  }

  lemma VolumeOne(x: seq<R.Order>)
    requires |x| <= 1
    ensures Volume(x) == if x == [] then 0 else x[0].qty
  {}

  lemma DrawnVolume(os: seq<R.Order>, k: nat, f: nat)
    requires k < |os| && f <= os[k].qty
    ensures Volume(R.Drawn(os, k, f)) + f == Volume(os)
  {
    DrawnSpliced(os, k, f);
    VolumeSpliced(os, k, LeftOf(os[k], f));
    VolumeOne(LeftOf(os[k], f));
  }

  ghost predicate Conserves(os: seq<R.Order>, qty: nat, t: R.Traded) {
    Volume(t.orders) + P.Filled(t.fills) == Volume(os) && t.residual + P.Filled(t.fills) == qty
  }

  lemma ConservesStep(os: seq<R.Order>, k: nat, f: nat, qty: nat, t: R.Traded)
    requires k < |os| && f <= os[k].qty && f <= qty && Conserves(R.Drawn(os, k, f), qty - f, t)
    ensures Conserves(os, qty, t.(fills := [Fill(os[k].id, os[k].price, f)] + t.fills))
  {
    DrawnVolume(os, k, f);
    FilledCons(Fill(os[k].id, os[k].price, f), t.fills);
  }

  /** Every traded lot leaves the incoming order and one resting order. */
  lemma {:induction false} TradeConserves(os: seq<R.Order>, taker: Side, limit: nat, qty: nat)
    requires R.Positive(os)
    ensures Conserves(os, qty, R.Trade(os, taker, limit, qty))
    decreases qty
  {
    var k := R.Pick(os, taker, limit, |os|);
    if qty != 0 && k.Some? {
      var f := Min(qty, os[k.value].qty);
      R.TradeStep(os, taker, limit, qty);
      var os1 := R.Drawn(os, k.value, f);
      TradeConserves(os1, taker, limit, qty - f);
      ConservesStep(os, k.value, f, qty, R.Trade(os1, taker, limit, qty - f));
    }
  }

  lemma FilledCons(f: Fill, fs: seq<Fill>)
    ensures P.Filled([f] + fs) == f.qty + P.Filled(fs)
  {
    assert ([f] + fs)[1..] == fs;
  }

  lemma ExecuteConserves(r: R.Ref, id: nat, s: Side, p: nat, qty: nat)
    requires R.Positive(r.orders)
    ensures var (r', reply) := R.Execute(r, id, s, p, qty);
            && reply.Done? && reply.resting + P.Filled(reply.fills) == qty
            && Volume(r'.orders) + 2 * P.Filled(reply.fills) == Volume(r.orders) + qty
  {
    TradeConserves(r.orders, s, p, qty);
    var t := R.Trade(r.orders, s, p, qty);
    var o := R.Order(id, s, p, t.residual, r.arrival);
    VolumeConcat(t.orders, [o]);
    VolumeOne([o]);
  }

  /** Quantity in, quantity out: what a command brings, rests, trades (twice, once per side) or takes away. */
  lemma CommandConserves(r: R.Ref, body: Body)
    requires R.Positive(r.orders)
    ensures var (r', reply) := R.Perform(r, body);
            match body
            case New(_, _, qty) =>
              && reply.Done? && reply.resting + P.Filled(reply.fills) == qty
              && Volume(r'.orders) + 2 * P.Filled(reply.fills) == Volume(r.orders) + qty
            case Cancel(_) => Volume(r'.orders) + (if reply.Done? then reply.resting else 0) == Volume(r.orders)
            case Amend(id, _, qty) =>
              if reply.Done? then
                var k := R.Find(r.orders, id);
                && k < |r.orders| && reply.resting + P.Filled(reply.fills) == qty
                && Volume(r'.orders) + 2 * P.Filled(reply.fills) + r.orders[k].qty == Volume(r.orders) + qty
              else r' == r
  {
    assert P.Filled([]) == 0;
    match body
    case New(s, p, qty) => ExecuteConserves(r.(nextId := r.nextId + 1), r.nextId, s, p, qty);
    case Cancel(id) =>
      var k := R.Find(r.orders, id);
      if k < |r.orders| { RemovedVolume(r.orders, k); }
    case Amend(id, p, qty) =>
      if R.Find(r.orders, id) < |r.orders| { AmendConserves(r, id, p, qty); }
  }

  lemma AmendConserves(r: R.Ref, id: nat, p: nat, qty: nat)
    requires R.Positive(r.orders) && R.Find(r.orders, id) < |r.orders|
    ensures var (r', reply) := R.Perform(r, Amend(id, p, qty));
            && reply.Done? && reply.resting + P.Filled(reply.fills) == qty
            && Volume(r'.orders) + 2 * P.Filled(reply.fills) + r.orders[R.Find(r.orders, id)].qty
                == Volume(r.orders) + qty
  {
    var k := R.Find(r.orders, id);
    if p == r.orders[k].price && qty <= r.orders[k].qty {
      ResizedVolume(r.orders, k, qty);
      assert P.Filled([]) == 0;
    } else {
      RemovedVolume(r.orders, k);
      ExecuteConserves(r.(orders := r.orders[..k] + r.orders[k + 1..]), id, r.orders[k].side, p, qty);
    }
  }

  lemma ResizedVolume(os: seq<R.Order>, k: nat, qty: nat)
    requires k < |os|
    ensures Volume(os[k := os[k].(qty := qty)]) + os[k].qty == Volume(os) + qty
  {
    var x := [os[k].(qty := qty)];
    VolumeSpliced(os, k, x);
    VolumeOne(x);
    assert Spliced(os, k, x) == os[k := os[k].(qty := qty)];
  }

  lemma RemovedVolume(os: seq<R.Order>, k: nat)
    requires k < |os|
    ensures Volume(os[..k] + os[k + 1..]) + os[k].qty == Volume(os)
  {
    VolumeSpliced(os, k, []);
    assert Spliced(os, k, []) == os[..k] + os[k + 1..];
  }
}
