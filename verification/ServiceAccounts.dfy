/** No request is lost: whoever has sent a node a request has been replied to, still waits there, or was displaced
    from the pending table by a request with a later index. */
module ServiceAccounts {
  import opened Common
  import opened Wire
  import opened Modular
  import opened Sessions
  import opened RaftTypes
  import opened RaftStep
  import opened ServiceRuns
  import C = RaftCluster
  import E = EndToEnd
  import P = RaftProvenance
  import S = ClientService

  // ---- who is waiting -------------------------------------------------------------------------------------

  /** The senders of buffered requests, in order. */
  function Senders(b: seq<S.Buffered>): (ids: seq<NodeId>)
    ensures |ids| == |b| && forall k :: 0 <= k < |b| ==> ids[k] == b[k].from
  {
    seq(|b|, k requires 0 <= k < |b| => b[k].from)
  }

  /** The receivers of replies, in order. */
  function Receivers(rs: seq<(NodeId, S.Reply)>): (ids: seq<NodeId>)
    ensures |ids| == |rs| && forall k :: 0 <= k < |rs| ==> ids[k] == rs[k].0
  {
    seq(|rs|, k requires 0 <= k < |rs| => rs[k].0)
  }

  /** How often client c is among them. */
  function Times(ids: seq<NodeId>, c: NodeId): nat { multiset(ids)[c] }

  function OwedBy(slot: S.Slot, c: NodeId): nat { if slot.Used? && slot.p.replyTo == c then 1 else 0 }

  /** How many indices client c waits for. */
  function Owed(slots: seq<S.Slot>, c: NodeId): nat {
    if slots == [] then 0 else Owed(slots[..|slots| - 1], c) + OwedBy(slots[|slots| - 1], c)
  }

  /** How many requests of client c are at this desk. */
  function Held(d: S.Desk, c: NodeId): nat { Times(Senders(d.buffer), c) + Owed(d.slots, c) }

  lemma {:induction false} OwedUpdate(slots: seq<S.Slot>, x: nat, slot: S.Slot, c: NodeId)
    requires x < |slots|
    ensures Owed(slots[x := slot], c) + OwedBy(slots[x], c) == Owed(slots, c) + OwedBy(slot, c)
    decreases |slots|
  {
    var n := |slots| - 1;
    if x < n {
      OwedUpdate(slots[..n], x, slot, c);
      assert slots[x := slot][..n] == slots[..n][x := slot];
    } else {
      assert slots[x := slot][..n] == slots[..n];
    }
  }

  // ---- who is displaced -------------------------------------------------------------------------------------

  /** Whether the m-th of consecutive registrations, from index `first` on, displaces client c: it had the cell
      before all of them, or the registration one table size earlier was its. */
  function DisplacedBy(slots: seq<S.Slot>, first: nat, who: seq<NodeId>, m: nat, c: NodeId): nat
    requires slots != [] && m < |who|
  {
    if m < |slots| then OwedBy(slots[(first + m) % |slots|], c) else if who[m - |slots|] == c then 1 else 0
  }

  function Displaced(slots: seq<S.Slot>, first: nat, who: seq<NodeId>, c: NodeId): nat
    requires slots != []
  {
    if who == [] then 0
    else Displaced(slots, first, who[..|who| - 1], c) + DisplacedBy(slots, first, who, |who| - 1, c)
  }

  /** The cell of the next registration, after some. */
  lemma {:induction false} CellBefore(slots: seq<S.Slot>, first: nat, ps: seq<S.Pending>, m: nat)
    requires slots != [] && |ps| <= m < |ps| + |slots|
    ensures S.PutAll(slots, first, ps)[(first + m) % |slots|]
            == if m < |slots| then slots[(first + m) % |slots|]
               else S.Used(first + m - |slots|, ps[m - |slots|])
    decreases |ps|
  {
    if ps != [] {
      var n := |ps| - 1;
      if m < n + |slots| {
        CellBefore(slots, first, ps[..n], m);
        if n < m { CellsDiffer(first + n, first + m, |slots|); }
      } else {
        NextLap(first + n, |slots|);
      }
    }
  }

  lemma {:induction false} OnePut(slots: seq<S.Slot>, first: nat, ps: seq<S.Pending>, who: seq<NodeId>, c: NodeId)
    requires slots != [] && ps != [] && |who| == |ps| && forall k :: 0 <= k < |ps| ==> ps[k].replyTo == who[k]
    ensures Owed(S.PutAll(slots, first, ps), c) + DisplacedBy(slots, first, who, |who| - 1, c)
            == Owed(S.PutAll(slots, first, ps[..|ps| - 1]), c) + if who[|who| - 1] == c then 1 else 0
  {
    var n := |ps| - 1;
    CellBefore(slots, first, ps[..n], n);
    OwedUpdate(S.PutAll(slots, first, ps[..n]), (first + n) % |slots|, S.Used(first + n, ps[n]), c);
  }

  /** Registering in a row puts everyone in the table and displaces exactly those. */
  lemma {:induction false} OwedAfter(slots: seq<S.Slot>, first: nat, ps: seq<S.Pending>, who: seq<NodeId>, c: NodeId)
    requires slots != [] && |who| == |ps| && forall k :: 0 <= k < |ps| ==> ps[k].replyTo == who[k]
    ensures Owed(S.PutAll(slots, first, ps), c) + Displaced(slots, first, who, c) == Owed(slots, c) + Times(who, c)
    decreases |ps|
  {
    if ps != [] {
      var n := |ps| - 1;
      OwedAfter(slots, first, ps[..n], who[..n], c);
      OnePut(slots, first, ps, who, c);
      TimesSnoc(who[..n], who[n], c);
      assert who == who[..n] + [who[n]];
    }
  }

  lemma TimesSnoc(ids: seq<NodeId>, id: NodeId, c: NodeId)
    ensures Times(ids + [id], c) == Times(ids, c) + if id == c then 1 else 0
  {}

  // ---- one turn ---------------------------------------------------------------------------------------------

  /** The requests before the service: those buffered, and the one that arrives. */
  function AtHand(d: S.Desk, deed: Deed): seq<S.Buffered> {
    d.buffer + if deed.Arrival? then [S.Buffered(deed.from, deed.req)] else []
  }

  /** How often this turn displaces client c from the table: not at all, unless it proposes. */
  function DisplacedIn(n: Node, d: S.Desk, deed: Deed, batch: seq<Bytes>, c: NodeId): nat
    requires d.slots != []
  {
    if batch == [] then 0 else Displaced(d.slots, |n.log| + 1, Senders(AtHand(d, deed)), c)
  }

  function CameIn(deed: Deed, c: NodeId): nat { if deed.Arrival? && deed.from == c then 1 else 0 }

  lemma SendersSnoc(b: seq<S.Buffered>, x: S.Buffered, c: NodeId)
    ensures Times(Senders(b + [x]), c) == Times(Senders(b), c) + if x.from == c then 1 else 0
  {
    assert Senders(b + [x]) == Senders(b) + [x.from];
  }

  lemma FlushBalances(d: S.Desk, core: S.Core, c: NodeId)
    requires d.slots != []
    ensures var t := S.Flush(d, core);
            Held(d, c) == Held(t.desk, c) + Times(Receivers(t.replies), c)
                          + if t.batch == [] then 0 else Displaced(d.slots, core.next, Senders(d.buffer), c)
  {
    var t := S.Flush(d, core);
    if d.buffer != [] {
      if core.leads {
        OwedAfter(d.slots, core.next, S.Waiting(d.buffer), Senders(d.buffer), c);
      } else {
        assert Receivers(t.replies) == Senders(d.buffer);
      }
    }
  }

  lemma SettleBalances(d: S.Desk, index: nat, command: Bytes, result: Bytes, c: NodeId)
    requires d.slots != []
    ensures var t := S.Settle(d, index, command, result);
            Held(d, c) == Held(t.desk, c) + Times(Receivers(t.replies), c) && t.batch == []
  {
    if S.Lookup(d.slots, index).Some? { OwedUpdate(d.slots, index % |d.slots|, S.Free, c); }
  }

  lemma ArriveBalances(d: S.Desk, maxBatch: nat, from: NodeId, req: S.Request, core: S.Core, c: NodeId)
    requires d.slots != [] && (maxBatch <= 1 ==> d.buffer == [])
    ensures var t := S.Arrive(d, maxBatch, from, req, core);
            CameIn(Arrival(from, req), c) + Held(d, c) == Held(t.desk, c) + Times(Receivers(t.replies), c)
              + if t.batch == [] then 0 else Displaced(d.slots, core.next, Senders(AtHand(d, Arrival(from, req))), c)
  {
    var hand := AtHand(d, Arrival(from, req));
    if core.leads && S.WellAddressed(req) {
      SendersSnoc(d.buffer, S.Buffered(from, req), c);
      if maxBatch <= 1 {
        OwedAfter(d.slots, core.next, [S.Pending(from, req.id)], Senders(hand), c);
        assert S.PutAll(d.slots, core.next, []) == d.slots;
      } else {
        FlushBalances(d.(buffer := hand, hint := core.hint), core, c);
      }
    }
  }

  // ---- whole runs -------------------------------------------------------------------------------------------

  predicate BufferFits(maxBatch: nat, d: S.Desk) {
    d.slots != [] && if maxBatch <= 1 then d.buffer == [] else |d.buffer| < maxBatch
  }

  lemma TurnFits(u: Setup, n: Node, d: S.Desk, deed: Deed)
    requires BufferFits(u.maxBatch, d) && (deed.Applied? ==> deed.x < |n.handed|)
    ensures BufferFits(u.maxBatch, TurnOf(u, n, d, deed).desk)
  {}

  /** A batch under way is never full. */
  lemma {:induction false} BuffersFit(u: Setup, s: System, k: nat, i: NodeId)
    requires IsSystem(u, s) && k <= |s.acts| && i in s.desks[k]
    ensures BufferFits(u.maxBatch, s.desks[k][i])
    decreases k
  {
    if k > 0 {
      assert DeskStep(u, s, k - 1);
      var a := s.acts[k - 1].i;
      BuffersFit(u, s, k - 1, a);
      TurnFits(u, s.run[k - 1].nodes[a], s.desks[k - 1][a], s.deeds[k - 1]);
      if i != a { BuffersFit(u, s, k - 1, i); }
    }
  }

  lemma TurnBalances(u: Setup, n: Node, d: S.Desk, deed: Deed, c: NodeId)
    requires BufferFits(u.maxBatch, d) && (deed.Applied? ==> deed.x < |n.handed|)
    ensures var t := TurnOf(u, n, d, deed);
            CameIn(deed, c) + Held(d, c)
            == Held(t.desk, c) + Times(Receivers(t.replies), c) + DisplacedIn(n, d, deed, t.batch, c)
  {
    match deed
    case Arrival(from, req) => ArriveBalances(d, u.maxBatch, from, req, CoreOf(n), c);
    case Linger =>
      FlushBalances(d, CoreOf(n), c);
      assert AtHand(d, deed) == d.buffer;
    case Applied(x) =>
      SettleBalances(d, x + 1, n.handed[x].command, ReplyAt(u.sv.m, E.CommandsIn(n.handed), x), c);
    case Quiet =>
  }

  ghost predicate At(s: System, k: nat, i: NodeId)
    requires Shaped(s) && k < |s.acts|
  {
    s.acts[k].i == i && Attends(s, k)
  }

  /** How many requests of client c came to node i in actions a to b. */
  ghost function Came(s: System, i: NodeId, c: NodeId, a: nat, b: nat): nat
    requires Shaped(s) && a <= b <= |s.acts|
  {
    if a == b then 0 else Came(s, i, c, a, b - 1) + if At(s, b - 1, i) then CameIn(s.deeds[b - 1], c) else 0
  }

  /** How many replies node i sent client c. */
  ghost function Replied(u: Setup, s: System, i: NodeId, c: NodeId, a: nat, b: nat): nat
    requires Shaped(s) && a <= b <= |s.acts|
  {
    if a == b then 0
    else Replied(u, s, i, c, a, b - 1)
         + if At(s, b - 1, i) then Times(Receivers(TurnAt(u, s, b - 1).replies), c) else 0
  }

  /** How often client c was displaced from node i's table. */
  ghost function Lost(s: System, i: NodeId, c: NodeId, a: nat, b: nat): nat
    requires Shaped(s) && a <= b <= |s.acts|
  {
    if a == b then 0
    else Lost(s, i, c, a, b - 1)
         + if At(s, b - 1, i) && s.acts[b - 1].e.ClientProposes?
           then DisplacedIn(s.run[b - 1].nodes[i], s.desks[b - 1][i], s.deeds[b - 1], s.acts[b - 1].e.commands, c)
           else 0
  }

  /** Between crashes of node i every request that came in is accounted for: the client has been replied to
      once for it, or it is still at the desk, or a later registration took its cell. */
  lemma {:induction false} NothingLost(u: Setup, s: System, i: NodeId, c: NodeId, a: nat, b: nat)
    requires IsSystem(u, s) && a <= b <= |s.acts| && i in s.desks[a]
    requires forall k :: a <= k < b && s.acts[k].i == i ==> s.acts[k].Run?
    ensures i in s.desks[b]
    ensures Held(s.desks[a][i], c) + Came(s, i, c, a, b)
            == Held(s.desks[b][i], c) + Replied(u, s, i, c, a, b) + Lost(s, i, c, a, b)
    decreases b
  {
    if a < b {
      NothingLost(u, s, i, c, a, b - 1);
      if s.acts[b - 1].i == i {
        TurnAccounted(u, s, b - 1, c);
      } else {
        OtherDesk(u, s, b - 1, i);
      }
    }
  }

  lemma OtherDesk(u: Setup, s: System, k: nat, i: NodeId)
    requires IsSystem(u, s) && k < |s.acts| && s.acts[k].i != i && i in s.desks[k]
    ensures i in s.desks[k + 1] && s.desks[k + 1][i] == s.desks[k][i]
  {
    assert DeskStep(u, s, k);
  }

  lemma TurnAccounted(u: Setup, s: System, k: nat, c: NodeId)
    requires IsSystem(u, s) && k < |s.acts| && s.acts[k].Run?
    ensures var i := s.acts[k].i;
            && At(s, k, i) && i in s.desks[k + 1]
            && CameIn(s.deeds[k], c) + Held(s.desks[k][i], c)
               == Held(s.desks[k + 1][i], c) + Times(Receivers(TurnAt(u, s, k).replies), c)
                  + if s.acts[k].e.ClientProposes?
                    then DisplacedIn(s.run[k].nodes[i], s.desks[k][i], s.deeds[k], s.acts[k].e.commands, c) else 0
  {
    var i := s.acts[k].i;
    assert DeskStep(u, s, k);
    BuffersFit(u, s, k, i);
    TurnBalances(u, s.run[k].nodes[i], s.desks[k][i], s.deeds[k], c);
  }

  /** A desk starts empty, after a crash as at the beginning. */
  lemma {:induction false} NobodyAtFirst(capacity: nat, c: NodeId)
    ensures Held(NewDesk(capacity), c) == 0
  {
    FreeOwesNobody(NewDesk(capacity).slots, c);
  }

  lemma {:induction false} FreeOwesNobody(slots: seq<S.Slot>, c: NodeId)
    requires forall x :: 0 <= x < |slots| ==> slots[x] == S.Free
    ensures Owed(slots, c) == 0
  {
    if slots != [] { FreeOwesNobody(slots[..|slots| - 1], c); }
  }

  /** As long as the indices waited for and the new ones span no more than the table, nobody is displaced. */
  lemma {:induction false} RoomForAll(slots: seq<S.Slot>, first: nat, who: seq<NodeId>, c: NodeId)
    requires slots != [] && |who| <= |slots|
    requires forall x {:trigger slots[x]} :: 0 <= x < |slots| && slots[x].Used? ==>
               slots[x].index % |slots| == x && first + |who| - |slots| <= slots[x].index < first
    ensures Displaced(slots, first, who, c) == 0
    decreases |who|
  {
    if who != [] {
      var n := |who| - 1;
      RoomForAll(slots, first, who[..n], c);
      var x := (first + n) % |slots|;
      if slots[x].Used? { CellsDiffer(slots[x].index, first + n, |slots|); }
    }
  }

  // ---- what is proposed, and what is said ---------------------------------------------------------------------

  function LeaderOf(n: Node): NodeId { if n.leaderId.Some? then n.leaderId.value else 0 }

  /** All requests at hand go out together and in order, and each sender waits for its own index. */
  ghost predicate Registers(n: Node, d: S.Desk, hand: seq<S.Buffered>, t: S.Turn) {
    && n.role.Leader? && t.desk.buffer == [] && t.batch == S.Commands(hand) && |t.desk.slots| == |d.slots| > 0
    && forall m {:trigger hand[m]} :: 0 <= m < |hand| <= |d.slots| ==>
         S.Lookup(t.desk.slots, |n.log| + 1 + m) == Some(S.Pending(hand[m].from, hand[m].req.id))
  }

  lemma FlushRegisters(n: Node, d: S.Desk)
    requires d.slots != [] && d.buffer != [] && n.role.Leader?
    ensures Registers(n, d, d.buffer, S.Flush(d, CoreOf(n)))
  {
    var ps := S.Waiting(d.buffer);
    forall m | 0 <= m < |d.buffer| <= |d.slots|
      ensures S.Lookup(S.PutAll(d.slots, |n.log| + 1, ps), |n.log| + 1 + m) == Some(ps[m])
    {
      S.PutAllKeeps(d.slots, |n.log| + 1, ps, m);
    }
  }

  lemma TurnRegisters(u: Setup, n: Node, d: S.Desk, deed: Deed)
    requires BufferFits(u.maxBatch, d) && (deed.Applied? ==> deed.x < |n.handed|)
    requires TurnOf(u, n, d, deed).batch != []
    ensures Registers(n, d, AtHand(d, deed), TurnOf(u, n, d, deed))
  {
    var hand := AtHand(d, deed);
    if deed.Arrival? {
      if u.maxBatch > 1 { FlushRegisters(n, d.(buffer := hand, hint := CoreOf(n).hint)); }
    } else {
      assert hand == d.buffer;
      FlushRegisters(n, d);
    }
  }

  /** A proposal carries every request at hand in arrival order; each becomes the log entry at the index its
      sender waits for, and bears its sender's identity. */
  lemma ProposedAtTheirIndices(u: Setup, s: System, k: nat, m: nat)
    requires IsSystem(u, s) && k < |s.acts| && s.acts[k].Run? && s.acts[k].e.ClientProposes?
    requires m < |s.acts[k].e.commands|
    ensures var i := s.acts[k].i;
            && Attends(s, k) && i in s.run[k + 1].nodes && i in s.desks[k + 1]
            && var n, d, d' := s.run[k].nodes[i], s.desks[k][i], s.desks[k + 1][i];
            && var hand, log' := AtHand(d, s.deeds[k]), s.run[k + 1].nodes[i].log;
            && |hand| == |s.acts[k].e.commands| && |log'| == |n.log| + |hand| && d'.slots != []
            && log'[|n.log| + m] == Entry(n.term, hand[m].req.command)
            && S.Prefix(hand[m].req.command) == Some(hand[m].req.id)
            && (|hand| <= |d.slots| ==>
                  S.Lookup(d'.slots, |n.log| + m + 1) == Some(S.Pending(hand[m].from, hand[m].req.id)))
  {
    var i := s.acts[k].i;
    assert DeskStep(u, s, k);
    BuffersFit(u, s, k, i);
    var n, d, deed := s.run[k].nodes[i], s.desks[k][i], s.deeds[k];
    TurnRegisters(u, n, d, deed);
    HandIsAddressed(u, s, k, m);
    LogGrowsBy(u, s, k);
  }

  lemma LogGrowsBy(u: Setup, s: System, k: nat)
    requires IsSystem(u, s) && k < |s.acts| && s.acts[k].Run? && s.acts[k].e.ClientProposes?
    requires s.acts[k].i in s.run[k].nodes && s.run[k].nodes[s.acts[k].i].role.Leader?
    ensures var i := s.acts[k].i;
            && i in s.run[k + 1].nodes
            && s.run[k + 1].nodes[i].log == s.run[k].nodes[i].log
                                            + Stamped(s.run[k].nodes[i].term, s.acts[k].e.commands)
  {
    assert C.StepAt(u.cl, s.run, s.acts, k);
    var i, cs := s.acts[k].i, s.acts[k].e.commands;
    var c, n := Config(i, u.cl[i]), s.run[k].nodes[i];
    if cs != [] { P.AdvanceKeepsLog(c, n.(log := n.log + Stamped(n.term, cs)), s.acts[k].room); }
  }

  /** Whatever is proposed was well addressed. */
  lemma HandIsAddressed(u: Setup, s: System, k: nat, m: nat)
    requires IsSystem(u, s) && k < |s.acts| && Attends(s, k)
    requires TurnAt(u, s, k).batch != [] && m < |AtHand(s.desks[k][s.acts[k].i], s.deeds[k])|
    ensures S.WellAddressed(AtHand(s.desks[k][s.acts[k].i], s.deeds[k])[m].req)
  {
    var i := s.acts[k].i;
    DesksFrom(u, s, k, i);
    var d := s.desks[k][i];
    if m < |d.buffer| { assert Asked(s, k, i, d.buffer[m].from, d.buffer[m].req); }
  }

  /** The leader as of the latest request that came to node i since it last booted, or 0. */
  ghost function LatestHint(s: System, k: nat, i: NodeId): NodeId
    requires Shaped(s) && k <= |s.acts|
  {
    if k == 0 then 0
    else if s.acts[k - 1].i != i then LatestHint(s, k - 1, i)
    else if s.acts[k - 1].Crash? then 0
    else if s.deeds[k - 1].Arrival? && i in s.run[k - 1].nodes then LeaderOf(s.run[k - 1].nodes[i])
    else LatestHint(s, k - 1, i)
  }

  lemma TurnHint(u: Setup, n: Node, d: S.Desk, deed: Deed)
    requires d.slots != [] && (deed.Applied? ==> deed.x < |n.handed|)
    ensures TurnOf(u, n, d, deed).desk.hint == if deed.Arrival? then LeaderOf(n) else d.hint
  {}

  lemma {:induction false} DeskHint(u: Setup, s: System, k: nat, i: NodeId)
    requires IsSystem(u, s) && k <= |s.acts| && i in s.desks[k]
    ensures s.desks[k][i].hint == LatestHint(s, k, i)
    decreases k
  {
    if k > 0 {
      assert DeskStep(u, s, k - 1);
      var a := s.acts[k - 1].i;
      DeskHint(u, s, k - 1, a);
      TurnHint(u, s.run[k - 1].nodes[a], s.desks[k - 1][a], s.deeds[k - 1]);
      if i != a { DeskHint(u, s, k - 1, i); }
    }
  }

  /** The replies of one action: a node that does not lead names its leader to whoever arrives and to everyone
      it had buffered; a request whose wire identity is not its command's is an error; a request that is taken in
      is not replied to yet; and an index taken by another's entry is answered with the latest hint. */
  lemma RefusedExactly(u: Setup, s: System, k: nat)
    requires IsSystem(u, s) && k < |s.acts|
    ensures Attends(s, k)
    ensures var i := s.acts[k].i;
            && var n, rs := s.run[k].nodes[i], TurnAt(u, s, k).replies;
            match s.deeds[k]
            case Arrival(from, req) =>
              rs == if !n.role.Leader? then [(from, S.NotLeader(LeaderOf(n)))]
                    else if S.Prefix(req.command) != Some(req.id) then [(from, S.Error)] else []
            case Linger =>
              if n.role.Leader? then rs == []
              else && |rs| == |s.desks[k][i].buffer|
                   && forall m :: 0 <= m < |rs| ==> rs[m] == (s.desks[k][i].buffer[m].from, S.NotLeader(LeaderOf(n)))
            case Applied(x) =>
              var p := S.Lookup(s.desks[k][i].slots, x + 1);
              rs == if p.None? then []
                    else if S.Prefix(n.handed[x].command) != Some(p.value.id)
                    then [(p.value.replyTo, S.NotLeader(LatestHint(s, k, i)))]
                    else [(p.value.replyTo, S.Answer(ReplyAt(u.sv.m, E.CommandsIn(n.handed), x)))]
            case Quiet => rs == []
  {
    assert DeskStep(u, s, k);
    DeskHint(u, s, k, s.acts[k].i);
  }
}
