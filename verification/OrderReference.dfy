/** What the flat reference matcher computes: one list of resting orders with arrival stamps,
    scanned from the front for every fill. */
module OrderReference {
  import opened Common
  import opened Wire
  import opened OrderTypes

  datatype Order = Order(id: nat, side: Side, price: nat, qty: nat, arrival: nat)

  datatype Ref = Ref(orders: seq<Order>, nextId: nat, arrival: nat, sessions: map<nat, Session>)

  const Fresh := Ref([], 1, 0, map[])

  ghost predicate Positive(os: seq<Order>) { forall k :: 0 <= k < |os| ==> os[k].qty > 0 }

  predicate Candidate(o: Order, taker: Side, limit: nat) {
    o.side != taker && Crosses(taker, o.price, limit)
  }

  /** Better price, or the same price and earlier arrival. */
  predicate Preferred(taker: Side, a: Order, b: Order) {
    if a.price != b.price then Better(taker, a.price, b.price) else a.arrival < b.arrival
  }

  /** The scan over the first n orders: position of the preferred candidate, if any. */
  function Pick(os: seq<Order>, taker: Side, limit: nat, n: nat): (k: Option<nat>)
    requires n <= |os|
    ensures k.Some? ==> k.value < n && Candidate(os[k.value], taker, limit)
  {
    if n == 0 then None
    else
      var best := Pick(os, taker, limit, n - 1);
      if Candidate(os[n - 1], taker, limit)
         && (best.None? || Preferred(taker, os[n - 1], os[best.value]))
      then Some(n - 1) else best
  }

  /** Order k gives up f. */
  function Drawn(os: seq<Order>, k: nat, f: nat): seq<Order>
    requires k < |os| && f <= os[k].qty
  {
    if f < os[k].qty then os[k := os[k].(qty := os[k].qty - f)] else os[..k] + os[k + 1..]
  }

  datatype Traded = Traded(orders: seq<Order>, fills: seq<Fill>, residual: nat)

  function Trade(os: seq<Order>, taker: Side, limit: nat, qty: nat): Traded
    requires Positive(os)
    decreases qty
  {
    var k := Pick(os, taker, limit, |os|);
    if qty == 0 || k.None? then Traded(os, [], qty)
    else
      var f := Min(qty, os[k.value].qty);
      var rest := Trade(Drawn(os, k.value, f), taker, limit, qty - f);
      rest.(fills := [Fill(os[k.value].id, os[k.value].price, f)] + rest.fills)
  }

  function Execute(r: Ref, id: nat, s: Side, p: nat, qty: nat): (Ref, Reply)
    requires Positive(r.orders)
  {
    var t := Trade(r.orders, s, p, qty);
    var r1 := r.(orders := t.orders);
    (if t.residual > 0
     then r1.(orders := t.orders + [Order(id, s, p, t.residual, r.arrival)], arrival := r.arrival + 1)
     else r1,
     Done(id, t.residual, t.fills))
  }

  /** Position of the order with this id; |os| when absent. */
  function Find(os: seq<Order>, id: nat): (k: nat)
    ensures k <= |os|
    ensures k < |os| ==> os[k].id == id
    ensures forall j :: 0 <= j < k ==> os[j].id != id
  {
    if os == [] || os[0].id == id then 0
    else
      assert forall j :: 1 <= j < |os| ==> os[j] == os[1..][j - 1];
      1 + Find(os[1..], id)
  }

  function Perform(r: Ref, body: Body): (Ref, Reply)
    requires Positive(r.orders)
  {
    match body
    case New(s, p, qty) => Execute(r.(nextId := r.nextId + 1), r.nextId, s, p, qty)
    case Cancel(id) =>
      var k := Find(r.orders, id);
      if k == |r.orders| then (r, Rejected)
      else (r.(orders := r.orders[..k] + r.orders[k + 1..]), Done(id, r.orders[k].qty, []))
    case Amend(id, p, qty) =>
      var k := Find(r.orders, id);
      if k == |r.orders| then (r, Rejected)
      else if p == r.orders[k].price && qty <= r.orders[k].qty then
        (r.(orders := r.orders[k := r.orders[k].(qty := qty)]), Done(id, qty, []))
      else
        Execute(r.(orders := r.orders[..k] + r.orders[k + 1..]), id, r.orders[k].side, p, qty)
  }

  function Apply(r: Ref, cmd: Bytes): (Ref, Reply)
    requires Positive(r.orders)
  {
    var h := DecodeHeader(cmd);
    if h.None? then (r, Malformed)
    else if Cached(r.sessions, h.value).Some? then (r, Cached(r.sessions, h.value).value)
    else
      var body := DecodeBody(cmd);
      if body.None? then (r, Malformed)
      else
        var (r', reply) := Perform(r, body.value);
        (r'.(sessions := Recorded(r.sessions, h.value, reply)), reply)
  }

  // ---- the scan finds the preferred candidate ---------------------------------------------------

  /** Candidate k is preferred to every other candidate. */
  ghost predicate Chosen(os: seq<Order>, taker: Side, limit: nat, k: nat) {
    && k < |os| && Candidate(os[k], taker, limit)
    && forall j :: 0 <= j < |os| && j != k && Candidate(os[j], taker, limit) ==> Preferred(taker, os[k], os[j])
  }

  predicate Before(a: Order, b: Order) { a.arrival < b.arrival }

  /** Orders sit in the list in order of arrival. */
  ghost predicate ByArrival(os: seq<Order>) {
    forall i, j {:trigger Before(os[i], os[j])} :: 0 <= i < j < |os| ==> Before(os[i], os[j])
  }

  lemma {:induction false} PickBest(os: seq<Order>, taker: Side, limit: nat, n: nat)
    requires n <= |os| && ByArrival(os)
    ensures Pick(os, taker, limit, n).None? ==> forall j :: 0 <= j < n ==> !Candidate(os[j], taker, limit)
    ensures Pick(os, taker, limit, n).Some? ==>
              var k := Pick(os, taker, limit, n).value;
              forall j :: 0 <= j < n && j != k && Candidate(os[j], taker, limit) ==> Preferred(taker, os[k], os[j])
  {
    if n > 0 {
      PickBest(os, taker, limit, n - 1);
      assert forall j :: 0 <= j < n - 1 ==> Before(os[j], os[n - 1]);
    }
  }

  /** The preferred candidate is unique, so it is what the scan returns. */
  lemma PickIsChosen(os: seq<Order>, taker: Side, limit: nat, k: nat)
    requires ByArrival(os) && Chosen(os, taker, limit, k)
    ensures Pick(os, taker, limit, |os|) == Some(k)
  {
    PickBest(os, taker, limit, |os|);
    var b := Pick(os, taker, limit, |os|);
    assert b.Some?;
    assert b.value != k ==> Preferred(taker, os[k], os[b.value]) && Preferred(taker, os[b.value], os[k]);
  }

  /** One fill, then the trade goes on with what is left. */
  lemma TradeStep(os: seq<Order>, taker: Side, limit: nat, qty: nat)
    requires Positive(os) && qty != 0 && Pick(os, taker, limit, |os|).Some?
    ensures var k := Pick(os, taker, limit, |os|).value;
            var f := Min(qty, os[k].qty);
            && Positive(Drawn(os, k, f))
            && var t := Trade(Drawn(os, k, f), taker, limit, qty - f);
               Trade(os, taker, limit, qty) == t.(fills := [Fill(os[k].id, os[k].price, f)] + t.fills)
  {}
}
