/** The cluster together with the client service of every node: requests arrive, are batched and proposed,
    and answers go out when entries are applied. What the services answer is linearizable. */
module ServiceRuns {
  import opened Common
  import opened Wire
  import opened Sessions
  import opened RaftTypes
  import opened RaftStep
  import opened RaftProvenance
  import opened EndToEnd
  import C = RaftCluster
  import L = Linearizability
  import S = ClientService
  import H = ServiceHistory

  datatype Setup = Setup(sv: Service, cl: C.Cluster, capacity: nat, maxBatch: nat)

  /** What the service of a node does at an action of the cluster. `Applied` is the state machine's answer
      to entry x, however long after the hand-over. */
  datatype Deed = Arrival(from: NodeId, req: S.Request) | Linger | Applied(x: nat) | Quiet

  datatype System = System(run: seq<Snapshot>, acts: seq<C.Action>, deeds: seq<Deed>, desks: seq<map<NodeId, S.Desk>>)

  function NewDesk(capacity: nat): S.Desk { S.Desk(seq(capacity, _ => S.Free), [], 0) }

  function CoreOf(n: Node): S.Core {
    S.Core(n.role.Leader?, if n.leaderId.Some? then n.leaderId.value else 0, |n.log| + 1)
  }

  ghost function TurnOf(u: Setup, n: Node, d: S.Desk, deed: Deed): S.Turn
    requires d.slots != [] && (deed.Applied? ==> deed.x < |n.handed|)
  {
    match deed
    case Arrival(from, req) => S.Arrive(d, u.maxBatch, from, req, CoreOf(n))
    case Linger => S.Flush(d, CoreOf(n))
    case Applied(x) => S.Settle(d, x + 1, n.handed[x].command, ReplyAt(u.sv.m, CommandsIn(n.handed), x))
    case Quiet => S.Turn(d, [], [])
  }

  ghost predicate Shaped(s: System) { |s.run| == |s.desks| == |s.acts| + 1 && |s.deeds| == |s.acts| }

  /** The desk that acts at step k is in order. */
  ghost predicate Attends(s: System, k: nat)
    requires Shaped(s) && k < |s.acts|
  {
    var i := s.acts[k].i;
    && i in s.run[k].nodes && i in s.desks[k] && s.desks[k][i].slots != []
    && (s.deeds[k].Applied? ==> s.deeds[k].x < |s.run[k].nodes[i].handed|)
  }

  ghost function TurnAt(u: Setup, s: System, k: nat): S.Turn
    requires Shaped(s) && k < |s.acts| && Attends(s, k)
  {
    TurnOf(u, s.run[k].nodes[s.acts[k].i], s.desks[k][s.acts[k].i], s.deeds[k])
  }

  /** The core is proposed to by its service alone; a proposal of nothing is no event for it. A crash takes
      the desk with it. */
  ghost predicate DeskStep(u: Setup, s: System, k: nat)
    requires Shaped(s) && k < |s.acts|
  {
    && Attends(s, k)
    && (if s.deeds[k].Quiet? then !s.acts[k].e.ClientProposes?
        else s.acts[k].e == ClientProposes(TurnAt(u, s, k).batch))
    && s.desks[k + 1] == s.desks[k][s.acts[k].i := if s.acts[k].Run? then TurnAt(u, s, k).desk else NewDesk(u.capacity)]
  }

  ghost predicate IsSystem(u: Setup, s: System) {
    && KvService(u.sv) && u.capacity > 0 && Shaped(s) && C.IsRun(u.cl, s.run, s.acts)
    && (forall cmd {:trigger u.sv.prefix(cmd)} :: u.sv.prefix(cmd) == S.Prefix(cmd))
    && (forall i {:trigger s.desks[0][i]} :: i in s.desks[0] ==> s.desks[0][i] == NewDesk(u.capacity))
    && forall k {:trigger DeskStep(u, s, k)} :: 0 <= k < |s.acts| ==> DeskStep(u, s, k)
  }

  // ---- the clients ------------------------------------------------------------------------------------------

  /** The answer operation i was given: sent at the action before state `time`, for a pending request of the
      operation's identity. */
  ghost predicate Answered(u: Setup, s: System, w: Clients, i: nat)
    requires Shaped(s) && i in w.acks
  {
    var a := w.acks[i];
    && i < |w.ops| && 0 < a.time <= |s.acts| && Attends(s, a.time - 1) && s.acts[a.time - 1].Run?
        && s.acts[a.time - 1].i == a.node
    && s.deeds[a.time - 1].Applied? && s.deeds[a.time - 1].x == a.index
    && var p := S.Lookup(s.desks[a.time - 1][a.node].slots, a.index + 1);
    && p.Some? && Some(p.value.id) == u.sv.prefix(w.ops[i])
    && TurnAt(u, s, a.time - 1).replies == [(p.value.replyTo, S.Answer(Taken(u, s, w, i)))]
  }

  /** The result the answer carries. */
  ghost function Taken(u: Setup, s: System, w: Clients, i: nat): Bytes
    requires Shaped(s) && i in w.acks && 0 < w.acks[i].time <= |s.acts| && Attends(s, w.acks[i].time - 1)
  {
    var rs := TurnAt(u, s, w.acks[i].time - 1).replies;
    if rs != [] && rs[0].1.Answer? then rs[0].1.result else []
  }

  /** Clients own their identities, and issue an operation only when those before it have been answered. */
  ghost predicate Disciplined(u: Setup, s: System, w: Clients)
    requires Shaped(s)
  {
    && OpsOk(u.sv, w)
    && (forall k {:trigger s.deeds[k]} :: 0 <= k < |s.deeds| && s.deeds[k].Arrival? ==>
          Issued(u.sv, w, k, s.deeds[k].req.command))
    && (forall i, j {:trigger Precedes(u.sv, w, i, j)} ::
          0 <= i < |w.ops| && 0 <= j < |w.ops| && Precedes(u.sv, w, i, j) ==>
            i in w.acks && w.acks[i].time <= w.invoke[j])
    && (forall i {:trigger Answered(u, s, w, i)} :: i in w.acks ==> Answered(u, s, w, i))
  }

  // ---- where buffered and pending requests come from -----------------------------------------------------------

  ghost predicate ArrivedAt(s: System, j: nat, i: NodeId, from: NodeId, req: S.Request)
    requires Shaped(s) && j < |s.acts|
  {
    s.acts[j].i == i && s.deeds[j] == Arrival(from, req)
  }

  /** This request came to node i before state k. */
  ghost predicate Asked(s: System, k: nat, i: NodeId, from: NodeId, req: S.Request)
    requires Shaped(s) && k <= |s.acts|
  {
    S.WellAddressed(req) && exists j :: 0 <= j < k && ArrivedAt(s, j, i, from, req)
  }

  ghost predicate PendingFrom(s: System, k: nat, i: NodeId, p: S.Pending)
    requires Shaped(s) && k <= |s.acts|
  {
    exists req :: Asked(s, k, i, p.replyTo, req) && req.id == p.id
  }

  ghost predicate SlotFrom(s: System, k: nat, i: NodeId, slot: S.Slot)
    requires Shaped(s) && k <= |s.acts|
  {
    slot.Used? ==> PendingFrom(s, k, i, slot.p)
  }

  ghost predicate BufferFrom(s: System, k: nat, i: NodeId, buffer: seq<S.Buffered>)
    requires Shaped(s) && k <= |s.acts|
  {
    forall x {:trigger buffer[x]} :: 0 <= x < |buffer| ==> Asked(s, k, i, buffer[x].from, buffer[x].req)
  }

  ghost predicate SlotsFrom(s: System, k: nat, i: NodeId, slots: seq<S.Slot>)
    requires Shaped(s) && k <= |s.acts|
  {
    slots != [] && forall x {:trigger slots[x]} :: 0 <= x < |slots| ==> SlotFrom(s, k, i, slots[x])
  }

  ghost predicate DeskFrom(s: System, k: nat, i: NodeId, d: S.Desk)
    requires Shaped(s) && k <= |s.acts|
  {
    SlotsFrom(s, k, i, d.slots) && BufferFrom(s, k, i, d.buffer)
  }

  lemma AskedLater(s: System, k: nat, i: NodeId, from: NodeId, req: S.Request)
    requires Shaped(s) && k < |s.acts| && Asked(s, k, i, from, req)
    ensures Asked(s, k + 1, i, from, req)
  {
    var j :| 0 <= j < k && ArrivedAt(s, j, i, from, req);
    assert ArrivedAt(s, j, i, from, req);
  }

  lemma SlotLater(s: System, k: nat, i: NodeId, slot: S.Slot)
    requires Shaped(s) && k < |s.acts| && SlotFrom(s, k, i, slot)
    ensures SlotFrom(s, k + 1, i, slot)
  {
    if slot.Used? {
      var req :| Asked(s, k, i, slot.p.replyTo, req) && req.id == slot.p.id;
      AskedLater(s, k, i, slot.p.replyTo, req);
    }
  }

  lemma DeskLater(s: System, k: nat, i: NodeId, d: S.Desk)
    requires Shaped(s) && k < |s.acts| && DeskFrom(s, k, i, d)
    ensures DeskFrom(s, k + 1, i, d)
  {
    forall x | 0 <= x < |d.slots| ensures SlotFrom(s, k + 1, i, d.slots[x]) { SlotLater(s, k, i, d.slots[x]); }
    forall x | 0 <= x < |d.buffer| ensures Asked(s, k + 1, i, d.buffer[x].from, d.buffer[x].req) {
      AskedLater(s, k, i, d.buffer[x].from, d.buffer[x].req);
    }
  }

  lemma PutFrom(s: System, k: nat, i: NodeId, slots: seq<S.Slot>, index: nat, p: S.Pending)
    requires Shaped(s) && k <= |s.acts| && SlotsFrom(s, k, i, slots) && PendingFrom(s, k, i, p)
    ensures SlotsFrom(s, k, i, S.PutIn(slots, index, p))
  {}

  lemma {:induction false} PutAllFrom(s: System, k: nat, i: NodeId, slots: seq<S.Slot>, first: nat, ps: seq<S.Pending>)
    requires Shaped(s) && k <= |s.acts| && SlotsFrom(s, k, i, slots)
    requires forall x {:trigger ps[x]} :: 0 <= x < |ps| ==> PendingFrom(s, k, i, ps[x])
    ensures SlotsFrom(s, k, i, S.PutAll(slots, first, ps))
    decreases |ps|
  {
    if ps != [] {
      var n := |ps| - 1;
      PutAllFrom(s, k, i, slots, first, ps[..n]);
      PutFrom(s, k, i, S.PutAll(slots, first, ps[..n]), first + n, ps[n]);
    }
  }

  /** Every command of the turn was asked for. */
  ghost predicate BatchFrom(s: System, k: nat, i: NodeId, batch: seq<Bytes>)
    requires Shaped(s) && k <= |s.acts|
  {
    forall cmd {:trigger cmd in batch} :: cmd in batch ==>
      exists from, req :: Asked(s, k, i, from, req) && req.command == cmd
  }

  ghost predicate TurnFrom(s: System, k: nat, i: NodeId, t: S.Turn)
    requires Shaped(s) && k <= |s.acts|
  {
    DeskFrom(s, k, i, t.desk) && BatchFrom(s, k, i, t.batch)
  }

  lemma FlushFrom(s: System, k: nat, i: NodeId, d: S.Desk, core: S.Core)
    requires Shaped(s) && k <= |s.acts| && DeskFrom(s, k, i, d)
    ensures TurnFrom(s, k, i, S.Flush(d, core))
  {
    if d.buffer != [] && core.leads {
      var ps, cs := S.Waiting(d.buffer), S.Commands(d.buffer);
      forall x | 0 <= x < |ps| ensures PendingFrom(s, k, i, ps[x]) {
        assert Asked(s, k, i, d.buffer[x].from, d.buffer[x].req);
      }
      PutAllFrom(s, k, i, d.slots, core.next, ps);
      forall cmd | cmd in cs ensures exists from, req :: Asked(s, k, i, from, req) && req.command == cmd {
        var x :| 0 <= x < |cs| && cs[x] == cmd;
        assert Asked(s, k, i, d.buffer[x].from, d.buffer[x].req);
      }
    }
  }

  lemma ArriveFrom(s: System, k: nat, i: NodeId, d: S.Desk, maxBatch: nat, from: NodeId, req: S.Request, core: S.Core)
    requires Shaped(s) && k <= |s.acts| && DeskFrom(s, k, i, d) && (S.WellAddressed(req) ==> Asked(s, k, i, from, req))
    ensures TurnFrom(s, k, i, S.Arrive(d, maxBatch, from, req, core))
  {
    if core.leads && S.WellAddressed(req) {
      if maxBatch <= 1 {
        assert PendingFrom(s, k, i, S.Pending(from, req.id));
        PutFrom(s, k, i, d.slots, core.next, S.Pending(from, req.id));
      } else {
        FlushFrom(s, k, i, d.(buffer := d.buffer + [S.Buffered(from, req)]), core);
      }
    }
  }

  lemma TurnAtFrom(u: Setup, s: System, k: nat)
    requires Shaped(s) && k < |s.acts| && Attends(s, k) && DeskFrom(s, k, s.acts[k].i, s.desks[k][s.acts[k].i])
    ensures TurnFrom(s, k + 1, s.acts[k].i, TurnAt(u, s, k))
  {
    var i, d, core := s.acts[k].i, s.desks[k][s.acts[k].i], CoreOf(s.run[k].nodes[s.acts[k].i]);
    DeskLater(s, k, i, d);
    match s.deeds[k]
    case Arrival(from, req) =>
      assert ArrivedAt(s, k, i, from, req);
      ArriveFrom(s, k + 1, i, d, u.maxBatch, from, req, core);
    case Linger => FlushFrom(s, k + 1, i, d, core);
    case Applied(_) =>
    case Quiet =>
  }

  /** Whatever a desk holds was asked for by a client. */
  lemma {:induction false} DesksFrom(u: Setup, s: System, k: nat, i: NodeId)
    requires IsSystem(u, s) && k <= |s.acts| && i in s.desks[k]
    ensures DeskFrom(s, k, i, s.desks[k][i])
    decreases k
  {
    if k > 0 {
      assert DeskStep(u, s, k - 1);
      var a := s.acts[k - 1].i;
      DesksFrom(u, s, k - 1, a);
      TurnAtFrom(u, s, k - 1);
      if i != a {
        DesksFrom(u, s, k - 1, i);
        DeskLater(s, k - 1, i, s.desks[k - 1][i]);
      }
    }
  }

  // ---- the services serve -----------------------------------------------------------------------------------------

  lemma IssuedLater(sv: Service, w: Clients, j: nat, k: nat, cmd: Bytes)
    requires |w.invoke| == |w.ops| && j <= k && Issued(sv, w, j, cmd)
    ensures Issued(sv, w, k, cmd)
  {}

  lemma AskedIsIssued(u: Setup, s: System, w: Clients, k: nat, i: NodeId, from: NodeId, req: S.Request)
    requires Shaped(s) && Disciplined(u, s, w) && k < |s.acts| && Asked(s, k + 1, i, from, req)
    ensures Issued(u.sv, w, k, req.command)
  {
    var j :| 0 <= j < k + 1 && ArrivedAt(s, j, i, from, req);
    assert s.deeds[j].Arrival?;
    IssuedLater(u.sv, w, j, k, req.command);
  }

  lemma ProposedIsIssued(u: Setup, s: System, w: Clients, k: nat, cmd: Bytes)
    requires IsSystem(u, s) && Disciplined(u, s, w) && k < |s.acts| && cmd in CommandsOf(s.acts[k].e)
    ensures Issued(u.sv, w, k, cmd)
  {
    assert DeskStep(u, s, k);
    var i := s.acts[k].i;
    DesksFrom(u, s, k, i);
    TurnAtFrom(u, s, k);
    assert cmd in TurnAt(u, s, k).batch;
    var from, req :| Asked(s, k + 1, i, from, req) && req.command == cmd;
    AskedIsIssued(u, s, w, k, i, from, req);
  }

  lemma OpIssuedBefore(u: Setup, s: System, w: Clients, k: nat, j: nat)
    requires IsSystem(u, s) && Disciplined(u, s, w) && k < |s.acts| && j < |w.ops|
        && w.ops[j] in CommandsOf(s.acts[k].e)
    ensures w.invoke[j] <= k
  {
    ProposedIsIssued(u, s, w, k, w.ops[j]);
    assert Claims(u.sv, w, w.ops[j]);
    var i :| 0 <= i < |w.ops| && w.ops[i] == w.ops[j] && w.invoke[i] <= k;
    SamePrefix(u.sv, w, i, j);
  }

  lemma ProposedInTurn(u: Setup, s: System, w: Clients, k: nat, j: nat)
    requires IsSystem(u, s) && Disciplined(u, s, w) && k < |s.acts| && j < |w.ops|
        && w.ops[j] in CommandsOf(s.acts[k].e)
    ensures InTurn(u.sv, w, j, k)
  {
    OpIssuedBefore(u, s, w, k, j);
    forall i | 0 <= i < |w.ops| && Precedes(u.sv, w, i, j) ensures i in w.acks && w.acks[i].time <= k {}
  }

  /** An answer is for an applied entry with the identity of the request. */
  lemma AnswerIsAck(u: Setup, s: System, w: Clients, i: nat)
    requires IsSystem(u, s) && i in w.acks && Answered(u, s, w, i)
    ensures AckOk(u.sv, w, s.run, i) && ResultOf(u.sv, w, s.run, i) == Taken(u, s, w, i)
  {
    var a := w.acks[i];
    var k := a.time - 1;
    assert DeskStep(u, s, k);
    StandsStill(u, s, k);
    assert TurnAt(u, s, k).replies[0].1.Answer?;
    assert CommandsIn(s.run[k].nodes[a.node].handed)[a.index] == s.run[k].nodes[a.node].handed[a.index].command;
  }

  /** Answering moves nothing in the cluster. */
  lemma StandsStill(u: Setup, s: System, k: nat)
    requires IsSystem(u, s) && k < |s.acts| && s.deeds[k].Applied? && s.acts[k].Run?
    ensures s.run[k + 1].nodes == s.run[k].nodes
  {
    assert DeskStep(u, s, k) && C.StepAt(u.cl, s.run, s.acts, k);
    assert TurnAt(u, s, k).batch == [];
    var i := s.acts[k].i;
    assert s.run[k].nodes[i := s.run[k].nodes[i]] == s.run[k].nodes;
  }

  lemma SystemServes(u: Setup, s: System, w: Clients)
    requires IsSystem(u, s) && Disciplined(u, s, w)
    ensures Serves(u.sv, u.cl, s.run, s.acts, w)
  {
    forall k, cmd | 0 <= k < |s.acts| && cmd in CommandsOf(s.acts[k].e) ensures Issued(u.sv, w, k, cmd) {
      ProposedIsIssued(u, s, w, k, cmd);
    }
    forall j, k | 0 <= j < |w.ops| && 0 <= k < |s.acts| && w.ops[j] in CommandsOf(s.acts[k].e)
      ensures InTurn(u.sv, w, j, k)
    {
      ProposedInTurn(u, s, w, k, j);
    }
    forall i | i in w.acks ensures AckOk(u.sv, w, s.run, i) {
      assert Answered(u, s, w, i);
      AnswerIsAck(u, s, w, i);
    }
  }

  /** The answers the services send, over any run of the cluster with crashes, batching, retries and leader
      changes, are linearizable in real time. */
  lemma AnswersLinearizable(u: Setup, s: System, w: Clients)
    requires IsSystem(u, s) && Disciplined(u, s, w)
    ensures Serves(u.sv, u.cl, s.run, s.acts, w)
    ensures var h := HistoryOf(u.sv, u.cl, s.run, s.acts, w);
            && L.WellTimed(h) && L.Linearizable(h)
            && forall i :: i in w.acks ==> Answered(u, s, w, i) && h[i].result == Taken(u, s, w, i)
  {
    SystemServes(u, s, w);
    H.ServiceLinearizable(u.sv, u.cl, s.run, s.acts, w);
    var h := HistoryOf(u.sv, u.cl, s.run, s.acts, w);
    forall i | i in w.acks ensures Answered(u, s, w, i) && h[i].result == Taken(u, s, w, i) {
      assert Answered(u, s, w, i);
      AnswerIsAck(u, s, w, i);
    }
  }

  /** An answer goes to a client that sent this node the operation's very command, and the applied entry is
      that command. */
  lemma AnswerGoesToRequester(u: Setup, s: System, w: Clients, i: nat) returns (from: NodeId, req: S.Request)
    requires IsSystem(u, s) && Disciplined(u, s, w) && i in w.acks && Answered(u, s, w, i)
    ensures req.command == w.ops[i] && Asked(s, w.acks[i].time - 1, w.acks[i].node, from, req)
    ensures TurnAt(u, s, w.acks[i].time - 1).replies == [(from, S.Answer(Taken(u, s, w, i)))]
  {
    var a := w.acks[i];
    var k := a.time - 1;
    DesksFrom(u, s, k, a.node);
    var slots := s.desks[k][a.node].slots;
    var slot := slots[(a.index + 1) % |slots|];
    assert SlotFrom(s, k, a.node, slot);
    from := slot.p.replyTo;
    req :| Asked(s, k, a.node, from, req) && req.id == slot.p.id;
    AskedLater(s, k, a.node, from, req);
    AskedIsIssued(u, s, w, k, a.node, from, req);
    assert u.sv.prefix(req.command) == u.sv.prefix(w.ops[i]);
    assert Claims(u.sv, w, req.command);
    var j :| 0 <= j < |w.ops| && w.ops[j] == req.command;
    SamePrefix(u.sv, w, i, j);
  }
}
