/** What the production engine computes: two price-level books with FIFO queues and an id index. */
module OrderEngine {
  import opened Common
  import opened Wire
  import opened OrderTypes

  datatype Resting = Resting(id: nat, qty: nat)
  type Level = seq<Resting>
  type Book = map<nat, Level>
  type Index = map<nat, (Side, nat)>

  datatype Engine = Engine(bids: Book, asks: Book, index: Index, nextId: nat, sessions: map<nat, Session>)

  const Empty := Engine(map[], map[], map[], 1, map[])

  function BookOf(e: Engine, s: Side): Book { if s.Bid? then e.bids else e.asks }

  function WithBook(e: Engine, s: Side, b: Book): Engine {
    if s.Bid? then e.(bids := b) else e.(asks := b)
  }

  function LevelAt(b: Book, p: nat): Level { if p in b then b[p] else [] }

  // ---- well-formed books ------------------------------------------------------------------

  /** No empty level and no empty order. */
  ghost predicate GoodLevel(l: Level) { l != [] && forall k :: 0 <= k < |l| ==> l[k].qty > 0 }

  ghost predicate GoodBook(b: Book) { forall p {:trigger b[p]} :: p in b ==> GoodLevel(b[p]) }

  /** Bids and asks do not overlap. */
  ghost predicate Uncrossed(e: Engine) {
    forall p, q {:trigger p in e.bids, q in e.asks} :: p in e.bids && q in e.asks ==> p < q
  }

  // ---- best price ---------------------------------------------------------------------------

  ghost predicate IsBest(taker: Side, b: Book, p: nat) {
    p in b && forall q {:trigger q in b} :: q in b && q != p ==> Better(taker, p, q)
  }

  lemma {:induction false} BestExists(taker: Side, b: Book)
    requires b != map[]
    ensures exists p :: IsBest(taker, b, p)
    decreases |b|
  {
    var x :| x in b;
    var rest := b - {x};
    assert forall q :: q in b && q != x ==> q in rest;
    if rest == map[] {
      assert IsBest(taker, b, x);
    } else {
      assert x !in rest && |rest.Keys| < |b.Keys|;
      BestExists(taker, rest);
      var p :| IsBest(taker, rest, p);
      assert IsBest(taker, b, if Better(taker, x, p) then x else p);
    }
  }

  /** The end of the ordered map the taker trades with first. */
  ghost function Best(taker: Side, b: Book): (p: nat)
    requires b != map[]
    ensures IsBest(taker, b, p)
  {
    BestExists(taker, b);
    var p :| IsBest(taker, b, p);
    p
  }

  // ---- matching -----------------------------------------------------------------------------------

  datatype Matched = Matched(book: Book, index: Index, fills: seq<Fill>, residual: nat)

  /** The best level's front order gives up f. */
  function Taken(b: Book, p: nat, f: nat): Book
    requires p in b && b[p] != [] && f <= b[p][0].qty
  {
    if f < b[p][0].qty then b[p := [Resting(b[p][0].id, b[p][0].qty - f)] + b[p][1..]]
    else if |b[p]| == 1 then b - {p}
    else b[p := b[p][1..]]
  }

  lemma TakenGood(b: Book, p: nat, f: nat)
    requires GoodBook(b) && p in b && f <= b[p][0].qty
    ensures GoodBook(Taken(b, p, f))
  {
    assert GoodLevel(b[p]);
    var b' := Taken(b, p, f);
    forall q | q in b' ensures GoodLevel(b'[q]) {
      if q != p { assert GoodLevel(b[q]); }
    }
  }

  ghost function Match(taker: Side, limit: nat, qty: nat, b: Book, ix: Index): Matched
    requires GoodBook(b)
    decreases qty
  {
    if qty == 0 || b == map[] || !Crosses(taker, Best(taker, b), limit) then Matched(b, ix, [], qty)
    else
      var p := Best(taker, b);
      assert GoodLevel(b[p]);
      var maker := b[p][0];
      var f := Min(qty, maker.qty);
      TakenGood(b, p, f);
      var rest := Match(taker, limit, qty - f, Taken(b, p, f), if f == maker.qty then ix - {maker.id} else ix);
      rest.(fills := [Fill(maker.id, p, f)] + rest.fills)
  }

  /** One fill, then the match goes on with what is left. */
  lemma MatchStep(taker: Side, limit: nat, qty: nat, b: Book, ix: Index)
    requires GoodBook(b) && qty != 0 && b != map[] && Crosses(taker, Best(taker, b), limit)
    ensures var p := Best(taker, b);
            && b[p] != []
            && var maker := b[p][0];
            && var f := Min(qty, maker.qty);
            && maker.qty > 0 && GoodBook(Taken(b, p, f))
            && var m := Match(taker, limit, qty - f, Taken(b, p, f), if f == maker.qty then ix - {maker.id} else ix);
               Match(taker, limit, qty, b, ix) == m.(fills := [Fill(maker.id, p, f)] + m.fills)
  {
    var p := Best(taker, b);
    assert GoodLevel(b[p]);
    TakenGood(b, p, Min(qty, b[p][0].qty));
  }

  function Rest(e: Engine, s: Side, p: nat, id: nat, qty: nat): Engine {
    WithBook(e, s, BookOf(e, s)[p := LevelAt(BookOf(e, s), p) + [Resting(id, qty)]])
      .(index := e.index[id := (s, p)])
  }

  /** Match, then rest what is left over. */
  ghost function Execute(e: Engine, id: nat, s: Side, p: nat, qty: nat): (Engine, Reply)
    requires GoodBook(e.bids) && GoodBook(e.asks)
  {
    var m := Match(s, p, qty, BookOf(e, Other(s)), e.index);
    var e1 := WithBook(e, Other(s), m.book).(index := m.index);
    (if m.residual > 0 then Rest(e1, s, p, id, m.residual) else e1, Done(id, m.residual, m.fills))
  }

  // ---- locating one order ----------------------------------------------------------------------------

  /** Position of the order with this id in its level; |l| when absent. */
  function Find(l: Level, id: nat): (k: nat)
    ensures k <= |l|
    ensures k < |l| ==> l[k].id == id
    ensures forall j :: 0 <= j < k ==> l[j].id != id
  {
    if l == [] || l[0].id == id then 0
    else
      assert forall j :: 1 <= j < |l| ==> l[j] == l[1..][j - 1];
      1 + Find(l[1..], id)
  }

  function Without(l: Level, id: nat): Level {
    var k := Find(l, id);
    if k < |l| then l[..k] + l[k + 1..] else l
  }

  function Removed(e: Engine, id: nat): Engine
    requires id in e.index
  {
    var (s, p) := e.index[id];
    var l := Without(LevelAt(BookOf(e, s), p), id);
    WithBook(e, s, if l == [] then BookOf(e, s) - {p} else BookOf(e, s)[p := l]).(index := e.index - {id})
  }

  function RemovedQty(e: Engine, id: nat): nat
    requires id in e.index
  {
    var (s, p) := e.index[id];
    var l := LevelAt(BookOf(e, s), p);
    if Find(l, id) < |l| then l[Find(l, id)].qty else 0
  }

  /** Same price, no more quantity: the order keeps its place. */
  function Resized(e: Engine, id: nat, qty: nat): Engine
    requires id in e.index
  {
    var (s, p) := e.index[id];
    var l := LevelAt(BookOf(e, s), p);
    var k := Find(l, id);
    if k < |l| then WithBook(e, s, BookOf(e, s)[p := l[k := Resting(id, qty)]]) else e
  }

  lemma RemovedGood(e: Engine, id: nat)
    requires GoodBook(e.bids) && GoodBook(e.asks) && id in e.index
    ensures GoodBook(Removed(e, id).bids) && GoodBook(Removed(e, id).asks)
  {
    var (s, p) := e.index[id];
    var b := BookOf(e, s);
    var l := Without(LevelAt(b, p), id);
    var b' := if l == [] then b - {p} else b[p := l];
    forall q | q in b' ensures GoodLevel(b'[q]) {
      if q in b { assert GoodLevel(b[q]); }
    }
  }

  lemma RestGood(b: Book, p: nat, o: Resting)
    requires GoodBook(b) && o.qty > 0
    ensures GoodBook(b[p := LevelAt(b, p) + [o]])
  {
    var b' := b[p := LevelAt(b, p) + [o]];
    forall q | q in b' ensures GoodLevel(b'[q]) {
      if q in b { assert GoodLevel(b[q]); }
    }
  }

  lemma ResizedGood(b: Book, p: nat, m: nat, o: Resting)
    requires GoodBook(b) && p in b && m < |b[p]| && o.qty > 0
    ensures GoodBook(b[p := b[p][m := o]])
  {
    var b' := b[p := b[p][m := o]];
    forall q | q in b' ensures GoodLevel(b'[q]) {
      assert GoodLevel(b[q]);
    }
  }

  // ---- commands ------------------------------------------------------------------------------------------

  ghost function Perform(e: Engine, body: Body): (Engine, Reply)
    requires GoodBook(e.bids) && GoodBook(e.asks)
  {
    match body
    case New(s, p, qty) => Execute(e.(nextId := e.nextId + 1), e.nextId, s, p, qty)
    case Cancel(id) =>
      if id !in e.index then (e, Rejected)
      else (Removed(e, id), Done(id, RemovedQty(e, id), []))
    case Amend(id, p, qty) =>
      if id !in e.index then (e, Rejected)
      else if e.index[id].1 == p && qty <= RemovedQty(e, id) then (Resized(e, id, qty), Done(id, qty, []))
      else
        RemovedGood(e, id);
        Execute(Removed(e, id), id, e.index[id].0, p, qty)
  }

  /** One committed command: parse, deduplicate, perform, cache. */
  ghost function Apply(e: Engine, cmd: Bytes): (Engine, Reply)
    requires GoodBook(e.bids) && GoodBook(e.asks)
  {
    var h := DecodeHeader(cmd);
    if h.None? then (e, Malformed)
    else if Cached(e.sessions, h.value).Some? then (e, Cached(e.sessions, h.value).value)
    else
      var body := DecodeBody(cmd);
      if body.None? then (e, Malformed)
      else
        var (e', r) := Perform(e, body.value);
        (e'.(sessions := Recorded(e.sessions, h.value, r)), r)
  }
}
