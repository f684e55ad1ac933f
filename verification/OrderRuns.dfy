/** Whole command streams: the engine answers every stream exactly as the reference does, and after
    every stream its book is uncrossed, free of empty entries and exactly indexed. */
module OrderRuns {
  import opened Common
  import opened Wire
  import opened OrderTypes
  import opened OrderRefinement
  import opened OrderSimulation
  import E = OrderEngine
  import P = OrderPriority
  import R = OrderReference

  // ---- the engine's own invariant ---------------------------------------------------------------

  ghost predicate Sound(e: E.Engine) { P.Good(e) && E.Uncrossed(e) }

  lemma PerformSound(e: E.Engine, body: Body)
    requires Sound(e)
    requires body.Amend? ==> body.qty > 0
    ensures Sound(E.Perform(e, body).0)
  {
    match body
    case New(s, p, qty) => P.ExecuteUncrossed(e.(nextId := e.nextId + 1), e.nextId, s, p, qty);
    case Cancel(id) => if id in e.index { P.RemovedUncrossed(e, id); }
    case Amend(id, p, qty) =>
      if id in e.index {
        if p == e.index[id].1 && qty <= E.RemovedQty(e, id) {
          P.ResizedUncrossed(e, id, qty);
        } else {
          P.RemovedUncrossed(e, id);
          EngineReplaces(e, id, p, qty);
          P.ExecuteUncrossed(E.Removed(e, id), id, e.index[id].0, p, qty);
        }
      }
  }

  lemma ApplySound(e: E.Engine, cmd: Bytes)
    requires Sound(e)
    ensures Sound(E.Apply(e, cmd).0)
  {
    var h := DecodeHeader(cmd);
    if h.Some? && DecodeBody(cmd).Some? { PerformSound(e, DecodeBody(cmd).value); }
  }

  ghost function EngineRun(cmds: seq<Bytes>): (out: (E.Engine, seq<Reply>))
    ensures Sound(out.0)
  {
    if cmds == [] then (E.Empty, [])
    else
      var before := EngineRun(cmds[..|cmds| - 1]);
      ApplySound(before.0, cmds[|cmds| - 1]);
      var after := E.Apply(before.0, cmds[|cmds| - 1]);
      (after.0, before.1 + [after.1])
  }

  // ---- the reference's own invariant ------------------------------------------------------------------

  lemma {:induction false} TradePositive(os: seq<R.Order>, taker: Side, limit: nat, qty: nat)
    requires R.Positive(os)
    ensures R.Positive(R.Trade(os, taker, limit, qty).orders)
    decreases qty
  {
    var k := R.Pick(os, taker, limit, |os|);
    if qty != 0 && k.Some? {
      var f := Min(qty, os[k.value].qty);
      TradePositive(R.Drawn(os, k.value, f), taker, limit, qty - f);
    }
  }

  lemma ExecutePositive(r: R.Ref, id: nat, s: Side, p: nat, qty: nat)
    requires R.Positive(r.orders)
    ensures R.Positive(R.Execute(r, id, s, p, qty).0.orders)
  {
    TradePositive(r.orders, s, p, qty);
  }

  lemma PerformPositive(r: R.Ref, body: Body)
    requires R.Positive(r.orders)
    requires body.Amend? ==> body.qty > 0
    ensures R.Positive(R.Perform(r, body).0.orders)
  {
    match body
    case New(s, p, qty) => ExecutePositive(r.(nextId := r.nextId + 1), r.nextId, s, p, qty);
    case Cancel(_) =>
    case Amend(id, p, qty) =>
      var k := R.Find(r.orders, id);
      if k < |r.orders| && !(p == r.orders[k].price && qty <= r.orders[k].qty) {
        ExecutePositive(r.(orders := r.orders[..k] + r.orders[k + 1..]), id, r.orders[k].side, p, qty);
      }
  }

  lemma ApplyPositive(r: R.Ref, cmd: Bytes)
    requires R.Positive(r.orders)
    ensures R.Positive(R.Apply(r, cmd).0.orders)
  {
    var h := DecodeHeader(cmd);
    if h.Some? && DecodeBody(cmd).Some? { PerformPositive(r, DecodeBody(cmd).value); }
  }

  ghost function ReferenceRun(cmds: seq<Bytes>): (out: (R.Ref, seq<Reply>))
    ensures R.Positive(out.0.orders)
  {
    if cmds == [] then (R.Fresh, [])
    else
      var before := ReferenceRun(cmds[..|cmds| - 1]);
      ApplyPositive(before.0, cmds[|cmds| - 1]);
      var after := R.Apply(before.0, cmds[|cmds| - 1]);
      (after.0, before.1 + [after.1])
  }

  // ---- refinement ----------------------------------------------------------------------------------------

  /** On every stream of commands, malformed and repeated ones included, engine and reference give the
      same replies and hold the same resting orders, counters and sessions. */
  lemma {:induction false} EngineRefinesReference(cmds: seq<Bytes>)
    ensures EngineRun(cmds).1 == ReferenceRun(cmds).1
    ensures Same(EngineRun(cmds).0, ReferenceRun(cmds).0)
  {
    if cmds == [] {
      EmptySame();
    } else {
      EngineRefinesReference(cmds[..|cmds| - 1]);
      ApplySame(EngineRun(cmds[..|cmds| - 1]).0, ReferenceRun(cmds[..|cmds| - 1]).0, cmds[|cmds| - 1]);
    }
  }

  lemma EmptySame()
    ensures Same(E.Empty, R.Fresh)
  {
    forall s, p: nat ensures E.LevelAt(E.BookOf(E.Empty, s), p) == LevelOf([], s, p) {}
  }

  // ---- the index -----------------------------------------------------------------------------------------------

  /** A resting order is where the index says, and the index lists resting orders only. */
  ghost predicate Indexed(e: E.Engine) {
    && (forall s, p: nat, m {:trigger E.LevelAt(E.BookOf(e, s), p)[m]} ::
          0 <= m < |E.LevelAt(E.BookOf(e, s), p)| ==>
            var o := E.LevelAt(E.BookOf(e, s), p)[m]; o.id in e.index && e.index[o.id] == (s, p) && o.id < e.nextId)
    && (forall s, p: nat, m, m' {:trigger E.LevelAt(E.BookOf(e, s), p)[m], E.LevelAt(E.BookOf(e, s), p)[m']} ::
          0 <= m < m' < |E.LevelAt(E.BookOf(e, s), p)| ==>
            E.LevelAt(E.BookOf(e, s), p)[m].id != E.LevelAt(E.BookOf(e, s), p)[m'].id)
    && (forall id {:trigger e.index[id]} :: id in e.index ==>
          var (s, p) := e.index[id]; E.Find(E.LevelAt(E.BookOf(e, s), p), id) < |E.LevelAt(E.BookOf(e, s), p)|)
  }

  lemma {:induction false} LevelMember(os: seq<R.Order>, s: Side, p: nat, m: nat) returns (k: nat)
    requires m < |LevelOf(os, s, p)|
    ensures k < |os| && At(os[k], s, p) && LevelOf(os, s, p)[m] == E.Resting(os[k].id, os[k].qty)
  {
    if At(os[0], s, p) {
      if m == 0 {
        k := 0;
      } else {
        var j := LevelMember(os[1..], s, p, m - 1);
        k := j + 1;
      }
    } else {
      var j := LevelMember(os[1..], s, p, m);
      k := j + 1;
    }
  }

  lemma {:induction false} LevelDistinct(os: seq<R.Order>, s: Side, p: nat, m: nat, m': nat)
    requires DistinctIds(os) && m < m' < |LevelOf(os, s, p)|
    ensures LevelOf(os, s, p)[m].id != LevelOf(os, s, p)[m'].id
  {
    assert DistinctIds(os[1..]) by {
      forall i, j | 0 <= i < j < |os| - 1 ensures Apart(os[1..][i], os[1..][j]) {
        assert Apart(os[i + 1], os[j + 1]);
      }
    }
    if !At(os[0], s, p) {
      LevelDistinct(os[1..], s, p, m, m');
    } else if m > 0 {
      LevelDistinct(os[1..], s, p, m - 1, m' - 1);
    } else {
      assert forall j :: 0 < j < |os| ==> Apart(os[0], os[j]);
      IdNotInLevel(os[1..], s, p, os[0].id);
    }
  }

  lemma SameIndexed(e: E.Engine, r: R.Ref)
    requires Same(e, r)
    ensures Indexed(e)
  {
    var os := r.orders;
    forall s, p: nat, m | 0 <= m < |E.LevelAt(E.BookOf(e, s), p)|
      ensures var o := E.LevelAt(E.BookOf(e, s), p)[m]; o.id in e.index && e.index[o.id] == (s, p) && o.id < e.nextId
    {
      MemberIndexed(e, r, s, p, m);
    }
    forall s, p: nat, m, m' | 0 <= m < m' < |E.LevelAt(E.BookOf(e, s), p)|
      ensures E.LevelAt(E.BookOf(e, s), p)[m].id != E.LevelAt(E.BookOf(e, s), p)[m'].id
    {
      assert E.LevelAt(E.BookOf(e, s), p) == LevelOf(os, s, p);
      LevelDistinct(os, s, p, m, m');
    }
    forall id | id in e.index
      ensures var (s, p) := e.index[id]; E.Find(E.LevelAt(E.BookOf(e, s), p), id) < |E.LevelAt(E.BookOf(e, s), p)|
    {
      FoundInBoth(e, os, id);
      LevelAround(e, os, R.Find(os, id));
    }
  }

  lemma MemberIndexed(e: E.Engine, r: R.Ref, s: Side, p: nat, m: nat)
    requires Same(e, r) && m < |E.LevelAt(E.BookOf(e, s), p)|
    ensures var o := E.LevelAt(E.BookOf(e, s), p)[m]; o.id in e.index && e.index[o.id] == (s, p) && o.id < e.nextId
  {
    assert E.LevelAt(E.BookOf(e, s), p) == LevelOf(r.orders, s, p);
    var k := LevelMember(r.orders, s, p, m);
    assert Tame(r.orders[k], r.nextId, r.arrival, r.nextId);
  }

  /** After any stream: best bid below best ask, no empty level or order, and an exact index. */
  lemma RunInvariant(cmds: seq<Bytes>)
    ensures var e := EngineRun(cmds).0; P.Good(e) && E.Uncrossed(e) && Indexed(e)
  {
    EngineRefinesReference(cmds);
    SameIndexed(EngineRun(cmds).0, ReferenceRun(cmds).0);
  }
}
