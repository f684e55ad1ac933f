/** The matching engine behind its session table: the same exactly-once law as the key-value store. */
module OrderSessions {
  import opened Common
  import opened Wire
  import opened OrderTypes
  import opened Sessions
  import opened OrderRuns
  import opened OrderSimulation
  import E = OrderEngine

  function IdentOf(cmd: Bytes): Option<Ident> {
    var h := DecodeHeader(cmd);
    if h.Some? then Some(Ident(h.value.clientId, h.value.seqNo)) else None
  }

  predicate BodySound(cmd: Bytes) { DecodeHeader(cmd).Some? && DecodeBody(cmd).Some? }

  /** The engine alone; its own session field is left empty. */
  ghost function Execute(e: E.Engine, cmd: Bytes): (E.Engine, Reply) {
    if Sound(e) && BodySound(cmd) then E.Perform(e, DecodeBody(cmd).value) else (e, Malformed)
  }

  /** Only the header is read before the session table is looked at. */
  ghost function OrderMachine(): Machine<E.Engine, Reply> {
    Machine(E.Empty, IdentOf, BodySound, (e, cmd) => Execute(e, cmd), Malformed)
  }

  /** Books, index and counter on one side, the session table on the other. */
  ghost function Split(e: E.Engine): State<E.Engine, Reply> { State(e.(sessions := map[]), e.sessions) }

  lemma ExecuteIgnoresSessions(e: E.Engine, ss: map<nat, OrderTypes.Session>, id: nat, s: Side, p: nat, qty: nat)
    requires E.GoodBook(e.bids) && E.GoodBook(e.asks)
    ensures E.Execute(e.(sessions := ss), id, s, p, qty).1 == E.Execute(e, id, s, p, qty).1
    ensures E.Execute(e.(sessions := ss), id, s, p, qty).0 == E.Execute(e, id, s, p, qty).0.(sessions := ss)
  {}

  lemma RemovedIgnoresSessions(e: E.Engine, ss: map<nat, OrderTypes.Session>, id: nat)
    requires id in e.index
    ensures E.Removed(e.(sessions := ss), id) == E.Removed(e, id).(sessions := ss)
    ensures E.RemovedQty(e.(sessions := ss), id) == E.RemovedQty(e, id)
  {}

  lemma AmendIgnoresSessions(e: E.Engine, ss: map<nat, OrderTypes.Session>, id: nat, p: nat, qty: nat)
    requires E.GoodBook(e.bids) && E.GoodBook(e.asks) && id in e.index
    ensures E.Perform(e.(sessions := ss), Amend(id, p, qty)).1 == E.Perform(e, Amend(id, p, qty)).1
    ensures E.Perform(e.(sessions := ss), Amend(id, p, qty)).0 == E.Perform(e, Amend(id, p, qty)).0.(sessions := ss)
  {
    RemovedIgnoresSessions(e, ss, id);
    if p != e.index[id].1 || E.RemovedQty(e, id) < qty {
      EngineReplaces(e, id, p, qty);
      EngineReplaces(e.(sessions := ss), id, p, qty);
      ExecuteIgnoresSessions(E.Removed(e, id), ss, id, e.index[id].0, p, qty);
    }
  }

  lemma NewIgnoresSessions(e: E.Engine, ss: map<nat, OrderTypes.Session>, s: Side, p: nat, qty: nat)
    requires E.GoodBook(e.bids) && E.GoodBook(e.asks)
    ensures E.Perform(e.(sessions := ss), New(s, p, qty)).1 == E.Perform(e, New(s, p, qty)).1
    ensures E.Perform(e.(sessions := ss), New(s, p, qty)).0 == E.Perform(e, New(s, p, qty)).0.(sessions := ss)
  {
    ExecuteIgnoresSessions(e.(nextId := e.nextId + 1), ss, e.nextId, s, p, qty);
  }

  lemma PerformIgnoresSessions(e: E.Engine, ss: map<nat, OrderTypes.Session>, body: Body)
    requires E.GoodBook(e.bids) && E.GoodBook(e.asks)
    ensures E.Perform(e.(sessions := ss), body).1 == E.Perform(e, body).1
    ensures E.Perform(e.(sessions := ss), body).0 == E.Perform(e, body).0.(sessions := ss)
  {
    match body
    case New(s, p, qty) => NewIgnoresSessions(e, ss, s, p, qty);
    case Cancel(id) => if id in e.index { RemovedIgnoresSessions(e, ss, id); }
    case Amend(id, p, qty) => if id in e.index { AmendIgnoresSessions(e, ss, id, p, qty); }
  }

  lemma ApplyIsSessions(e: E.Engine, cmd: Bytes)
    requires Sound(e)
    ensures E.Apply(e, cmd).1 == Apply(OrderMachine(), Split(e), cmd).1
    ensures Split(E.Apply(e, cmd).0) == Apply(OrderMachine(), Split(e), cmd).0
  {
    if BodySound(cmd) { PerformIgnoresSessions(e, map[], DecodeBody(cmd).value); }
  }

  /** On every stream the engine's replies and state are those of executing each fresh command once. */
  lemma {:induction false} EngineExactlyOnce(cmds: seq<Bytes>)
    ensures var m := OrderMachine();
            && Split(EngineRun(cmds).0) == After(m, cmds, |cmds|)
            && |EngineRun(cmds).1| == |cmds|
            && (forall k :: 0 <= k < |cmds| ==> EngineRun(cmds).1[k] == ReplyAt(m, cmds, k))
  {
    var m, n := OrderMachine(), |cmds|;
    if n > 0 {
      var before := cmds[..n - 1];
      EngineExactlyOnce(before);
      PrefixAgrees(m, cmds, before, n - 1);
      ApplyIsSessions(EngineRun(before).0, cmds[n - 1]);
      forall k | 0 <= k < n ensures EngineRun(cmds).1[k] == ReplyAt(m, cmds, k) {
        if k < n - 1 {
          assert cmds[..k] == before[..k];
          PrefixAgrees(m, cmds, before, k);
        }
      }
    }
  }

  /** So the books are those of the executed commands alone, once each and in order. */
  lemma EngineIsBareRun(cmds: seq<Bytes>)
    ensures var m := OrderMachine();
            EngineRun(cmds).0.(sessions := map[]) == Bare(m, cmds, Executed(m, cmds, |cmds|))
  {
    EngineExactlyOnce(cmds);
    StateIsBareRun(OrderMachine(), cmds, |cmds|);
  }
}
