/** The balance of the engine itself: over whole command streams, the quantity resting in its books changes by
    exactly what each command brings, trades on both sides or takes away. */
module OrderBalance {
  import opened Common
  import opened Wire
  import opened OrderTypes
  import opened OrderRefinement
  import opened OrderSimulation
  import opened OrderRuns
  import opened OrderConservation
  import E = OrderEngine
  import P = OrderPriority
  import R = OrderReference

  function LevelVolume(l: E.Level): nat { if l == [] then 0 else l[0].qty + LevelVolume(l[1..]) }

  /** What rests at prices below n. */
  function BookVolume(b: E.Book, n: nat): nat {
    if n == 0 then 0 else BookVolume(b, n - 1) + LevelVolume(E.LevelAt(b, n - 1))
  }

  /** A price above all levels. */
  ghost function Top(b: E.Book): (n: nat)
    ensures forall p {:trigger p in b} :: p in b ==> p < n
  {
    if b == map[] then 0 else E.Best(Ask, b) + 1
  }

  /** Everything that rests in the two books. */
  ghost function Total(e: E.Engine): nat {
    BookVolume(e.bids, Top(e.bids)) + BookVolume(e.asks, Top(e.asks))
  }

  // ---- the same volume as the flat list ---------------------------------------------------------------------

  predicate Under(o: R.Order, s: Side, n: nat) { o.side == s && o.price < n }

  function VolumeUnder(os: seq<R.Order>, s: Side, n: nat): nat {
    if os == [] then 0 else (if Under(os[0], s, n) then os[0].qty else 0) + VolumeUnder(os[1..], s, n)
  }

  lemma {:induction false} NothingUnder(os: seq<R.Order>, s: Side)
    ensures VolumeUnder(os, s, 0) == 0
  {
    if os != [] { NothingUnder(os[1..], s); }
  }

  lemma LevelVolumeCons(o: E.Resting, l: E.Level)
    ensures LevelVolume([o] + l) == o.qty + LevelVolume(l)
  {
    assert ([o] + l)[1..] == l;
  }

  lemma {:induction false} OneLevelMore(os: seq<R.Order>, s: Side, n: nat)
    ensures VolumeUnder(os, s, n + 1) == VolumeUnder(os, s, n) + LevelVolume(LevelOf(os, s, n))
    decreases os
  {
    if os != [] {
      OneLevelMore(os[1..], s, n);
      if At(os[0], s, n) {
        LevelVolumeCons(E.Resting(os[0].id, os[0].qty), LevelOf(os[1..], s, n));
      } else {
        assert LevelOf(os, s, n) == LevelOf(os[1..], s, n);
      }
    }
  }

  lemma {:induction false} BookHolds(e: E.Engine, os: seq<R.Order>, s: Side, n: nat)
    requires BooksAgree(e, os)
    ensures BookVolume(E.BookOf(e, s), n) == VolumeUnder(os, s, n)
    decreases n
  {
    if n == 0 {
      NothingUnder(os, s);
    } else {
      BookHolds(e, os, s, n - 1);
      OneLevelMore(os, s, n - 1);
      assert E.LevelAt(E.BookOf(e, s), n - 1) == LevelOf(os, s, n - 1);
    }
  }

  lemma {:induction false} SidesAddUp(os: seq<R.Order>, bids: nat, asks: nat)
    requires forall k :: 0 <= k < |os| ==> os[k].price < if os[k].side.Bid? then bids else asks
    ensures VolumeUnder(os, Bid, bids) + VolumeUnder(os, Ask, asks) == Volume(os)
    decreases os
  {
    if os != [] {
      assert os[0].price < if os[0].side.Bid? then bids else asks;
      SidesAddUp(os[1..], bids, asks);
    }
  }

  lemma TotalIsVolume(e: E.Engine, os: seq<R.Order>)
    requires Agree(e, os)
    ensures Total(e) == Volume(os)
  {
    BookHolds(e, os, Bid, Top(e.bids));
    BookHolds(e, os, Ask, Top(e.asks));
    forall k | 0 <= k < |os| ensures os[k].price < if os[k].side.Bid? then Top(e.bids) else Top(e.asks) {
      LevelAround(e, os, k);
      assert os[k].price in E.BookOf(e, os[k].side);
    }
    SidesAddUp(os, Top(e.bids), Top(e.asks));
  }

  // ---- the balance ---------------------------------------------------------------------------------------------

  /** Quantity in, quantity out: what a command brings, rests, trades (twice, once per side) or takes away. */
  ghost predicate Balanced(e: E.Engine, body: Body, total: nat, reply: Reply) {
    match body
    case New(_, _, qty) =>
      && reply.Done? && reply.resting + P.Filled(reply.fills) == qty
      && total + 2 * P.Filled(reply.fills) == Total(e) + qty
    case Cancel(id) =>
      && (reply.Done? <==> id in e.index)
      && (if id in e.index then total + E.RemovedQty(e, id) == Total(e) && reply.resting == E.RemovedQty(e, id)
          else total == Total(e))
    case Amend(id, _, qty) =>
      && (reply.Done? <==> id in e.index)
      && (if id in e.index
          then && reply.resting + P.Filled(reply.fills) == qty
               && total + 2 * P.Filled(reply.fills) + E.RemovedQty(e, id) == Total(e) + qty
          else total == Total(e))
  }

  lemma PerformBalanced(e: E.Engine, r: R.Ref, body: Body)
    requires Same(e, r) && (body.Amend? ==> body.qty > 0)
    ensures Balanced(e, body, Total(E.Perform(e, body).0), E.Perform(e, body).1)
  {
    var (e', reply) := E.Perform(e, body);
    PerformSame(e, r, body);
    CommandConserves(r, body);
    TotalIsVolume(e, r.orders);
    TotalIsVolume(e', R.Perform(r, body).0.orders);
    if !body.New? {
      FoundInBoth(e, r.orders, body.id);
      if body.id in e.index { RemovedSame(e, r, R.Find(r.orders, body.id)); }
    }
  }

  lemma TotalFrame(e: E.Engine, e': E.Engine)
    requires e'.bids == e.bids && e'.asks == e.asks
    ensures Total(e') == Total(e)
  {}

  /** The command is neither malformed nor a repeat, so it is performed. */
  ghost predicate Performed(e: E.Engine, cmd: Bytes) {
    var h := DecodeHeader(cmd);
    h.Some? && Cached(e.sessions, h.value).None? && DecodeBody(cmd).Some?
  }

  /** After any stream the next command leaves the engine's books balanced, and one that is not performed
      leaves them alone. */
  lemma EngineConserves(cmds: seq<Bytes>, cmd: Bytes)
    ensures var e := EngineRun(cmds).0;
            var (e', reply) := E.Apply(e, cmd);
            if Performed(e, cmd) then Balanced(e, DecodeBody(cmd).value, Total(e'), reply)
            else e' == e
  {
    EngineRefinesReference(cmds);
    var e := EngineRun(cmds).0;
    if Performed(e, cmd) {
      PerformBalanced(e, ReferenceRun(cmds).0, DecodeBody(cmd).value);
      TotalFrame(E.Perform(e, DecodeBody(cmd).value).0, E.Apply(e, cmd).0);
    }
  }
}
