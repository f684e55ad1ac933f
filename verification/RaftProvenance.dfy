/** Where log entries come from: whatever a node ever logs, sends or applies was proposed earlier. */
module RaftProvenance {
  import opened RaftTypes
  import opened RaftStep
  import opened RaftInvariant
  import opened RaftCrash
  import opened RaftCluster

  ghost predicate LogFrom(p: set<Command>, log: Log) { forall k :: 0 <= k < |log| ==> log[k].command in p }

  ghost predicate MsgFrom(p: set<Command>, m: Msg) { m.AppendEntries? ==> LogFrom(p, m.entries) }

  ghost predicate EffectFrom(p: set<Command>, e: Effect) {
    match e
    case AppendLog(es) => LogFrom(p, es)
    case Send(_, m) => MsgFrom(p, m)
    case _ => true
  }

  ghost predicate EffectsFrom(p: set<Command>, es: seq<Effect>) {
    forall k {:trigger es[k]} :: 0 <= k < |es| ==> EffectFrom(p, es[k])
  }

  ghost predicate OutcomeFrom(p: set<Command>, o: Outcome) { LogFrom(p, o.node.log) && EffectsFrom(p, o.effects) }

  function CommandsOf(e: Event): set<Command> {
    if e.ClientProposes? then set k | 0 <= k < |e.commands| :: e.commands[k] else {}
  }

  ghost predicate EventFrom(p: set<Command>, e: Event) {
    CommandsOf(e) <= p && (e.Receive? ==> MsgFrom(p, e.msg))
  }

  // ---- one step -----------------------------------------------------------------------------------

  lemma AppendFromLog(p: set<Command>, c: Config, n: Node, peer: NodeId)
    requires LogFrom(p, n.log)
    ensures MsgFrom(p, AppendFor(c, n, peer))
  {}

  lemma AppendToAllFrom(p: set<Command>, c: Config, n: Node, peers: seq<NodeId>)
    requires LogFrom(p, n.log)
    ensures EffectsFrom(p, AppendToAll(c, n, peers))
  {
    var es := AppendToAll(c, n, peers);
    forall k | 0 <= k < |es| ensures EffectFrom(p, es[k]) {
      AppendFromLog(p, c, n, peers[k]);
    }
  }

  lemma MergeFrom(p: set<Command>, log: Log, prev: nat, es: seq<Entry>)
    requires LogFrom(p, log) && LogFrom(p, es) && prev <= |log|
    ensures LogFrom(p, Merge(log, prev, es)) && EffectsFrom(p, MergeEffects(log, prev, es))
  {}

  lemma AdvanceKeepsLog(c: Config, n: Node, room: nat)
    ensures AdvanceCommit(c, n, room).log == n.log
  {}

  lemma MessageFrom(p: set<Command>, c: Config, n: Node, from: NodeId, m: Msg, room: nat)
    requires LogFrom(p, n.log) && MsgFrom(p, m)
    ensures OutcomeFrom(p, OnMessage(c, n, from, m, room))
  {
    match m
    case RequestVote(_, _, _, _) =>
    case RequestVoteReply(_, _) => AppendToAllFrom(p, c, Elected(c, n.(votes := n.votes + {from})), c.peers);
    case AppendEntries(_, _, _, _, _, _) =>
      if Accepts(n, m) { MergeFrom(p, n.log, m.prevLogIndex, m.entries); }
    case AppendEntriesReply(_, _, ack, _) =>
      AdvanceKeepsLog(c, Acked(n, from, ack), room);
      AppendFromLog(p, c, AdvanceCommit(c, Acked(n, from, ack), room), from);
      AppendFromLog(p, c, n.(nextIndex := n.nextIndex[from := Backtracked(n, from, m)]), from);
  }

  lemma TickFrom(p: set<Command>, c: Config, n: Node)
    requires LogFrom(p, n.log)
    ensures OutcomeFrom(p, Tick(c, n))
  {
    if n.role.Leader? {
      AppendToAllFrom(p, c, n, c.peers);
    } else {
      var k := Campaigning(c, n);
      var asks := AskAll(RequestVote(k.term, c.self, |k.log|, LastTerm(k.log)), c.peers);
      EffectsConcat(p, [SaveState(k.term, k.vote)], asks);
      AppendToAllFrom(p, c, Elected(c, k), c.peers);
      EffectsConcat(p, [SaveState(k.term, k.vote)] + asks, AppendToAll(c, Elected(c, k), c.peers));
    }
  }

  lemma EffectsConcat(p: set<Command>, a: seq<Effect>, b: seq<Effect>)
    requires EffectsFrom(p, a) && EffectsFrom(p, b)
    ensures EffectsFrom(p, a + b)
  {}

  lemma ProposeFrom(p: set<Command>, c: Config, n: Node, cs: seq<Command>, room: nat)
    requires LogFrom(p, n.log) && forall k :: 0 <= k < |cs| ==> cs[k] in p
    ensures OutcomeFrom(p, Propose(c, n, cs, room))
  {
    var m := n.(log := n.log + Stamped(n.term, cs));
    AdvanceKeepsLog(c, m, room);
    AppendToAllFrom(p, c, AdvanceCommit(c, m, room), c.peers);
  }

  lemma StepFrom(p: set<Command>, c: Config, n: Node, e: Event, room: nat)
    requires LogFrom(p, n.log) && EventFrom(p, e)
    ensures OutcomeFrom(p, Step(c, n, e, room))
  {
    match e
    case TimerFires => TickFrom(p, c, n);
    case Receive(from, m) => MessageFrom(p, c, Adopt(n, m.term).node, from, m, room);
    case ClientProposes(cs) =>
      assert forall k :: 0 <= k < |cs| ==> cs[k] in CommandsOf(e);
      ProposeFrom(p, c, n, cs, room);
    case PumpApply =>
  }

  lemma {:induction false} WrittenFrom(p: set<Command>, d: Disk, es: seq<Effect>)
    requires LogFrom(p, d.log) && EffectsFrom(p, es)
    ensures LogFrom(p, WrittenAll(d, es).log)
    decreases |es|
  {
    if es != [] {
      assert EffectFrom(p, es[0]);
      WrittenFrom(p, Written(d, es[0]), es[1..]);
    }
  }

  lemma CrashFrom(p: set<Command>, d: Disk, es: seq<Effect>, k: nat, j: nat)
    requires LogFrom(p, d.log) && EffectsFrom(p, es) && k <= |es|
    ensures LogFrom(p, CrashDisk(d, es, k, j).log)
  {
    WrittenFrom(p, d, es[..k]);
    if k < |es| { assert EffectFrom(p, es[k]); }
  }

  // ---- whole runs -------------------------------------------------------------------------------------

  /** Everything proposed by the first t actions, whether or not it was accepted. */
  function ProposedBy(acts: seq<Action>, t: nat): set<Command>
    requires t <= |acts|
  {
    if t == 0 then {} else ProposedBy(acts, t - 1) + CommandsOf(acts[t - 1].e)
  }

  ghost predicate StateFrom(p: set<Command>, s: State) {
    && (forall i {:trigger s.nodes[i]} :: i in s.nodes ==> LogFrom(p, s.nodes[i].log))
    && (forall q {:trigger q in s.msgs} :: q in s.msgs ==> MsgFrom(p, q.msg))
  }

  lemma LogFromMore(p: set<Command>, q: set<Command>, s: State)
    requires StateFrom(p, s) && p <= q
    ensures StateFrom(q, s)
  {
    forall i | i in s.nodes ensures LogFrom(q, s.nodes[i].log) { assert LogFrom(p, s.nodes[i].log); }
    forall m | m in s.msgs ensures MsgFrom(q, m.msg) { assert MsgFrom(p, m.msg); }
  }

  lemma MovedFrom(p: set<Command>, s: State, i: NodeId, n: Node, es: seq<Effect>)
    requires StateFrom(p, s) && LogFrom(p, n.log) && EffectsFrom(p, es)
    ensures StateFrom(p, State(s.nodes[i := n], s.msgs + Sent(i, es)))
  {
    forall q | q in s.msgs + Sent(i, es) ensures MsgFrom(p, q.msg) {
      if q !in s.msgs {
        var k :| 0 <= k < |es| && es[k].Send? && q == Packet(i, es[k].to, es[k].msg);
        assert EffectFrom(p, es[k]);
      }
    }
  }

  lemma NextFrom(p: set<Command>, cl: Cluster, s: State, a: Action, s': State)
    requires StateFrom(p, s) && CommandsOf(a.e) <= p && Next(cl, s, a, s')
    ensures StateFrom(p, s')
  {
    var c, n := Config(a.i, cl[a.i]), s.nodes[a.i];
    assert LogFrom(p, n.log);
    if a.e.Receive? { assert Packet(a.e.from, a.i, a.e.msg) in s.msgs; }
    StepFrom(p, c, n, a.e, a.room);
    var o := Step(c, n, a.e, a.room);
    match a
    case Run(i, _, _) => MovedFrom(p, s, i, o.node, o.effects);
    case Crash(i, _, _, k, j) =>
      CrashFrom(p, DiskOf(n), o.effects, k, j);
      MovedFrom(p, s, i, BootFrom(CrashDisk(DiskOf(n), o.effects, k, j)), o.effects[..k]);
  }

  lemma {:induction false} RunFrom(cl: Cluster, run: seq<State>, acts: seq<Action>, t: nat)
    requires IsRun(cl, run, acts) && t < |run|
    ensures StateFrom(ProposedBy(acts, t), run[t])
    decreases t
  {
    if t > 0 {
      RunFrom(cl, run, acts, t - 1);
      OneMore(ProposedBy(acts, t - 1), ProposedBy(acts, t), cl, run, acts, t - 1);
    }
  }

  lemma OneMore(p: set<Command>, q: set<Command>, cl: Cluster, run: seq<State>, acts: seq<Action>, k: nat)
    requires IsRun(cl, run, acts) && k < |acts| && StateFrom(p, run[k]) && q == p + CommandsOf(acts[k].e)
    ensures StateFrom(q, run[k + 1])
  {
    assert StepAt(cl, run, acts, k);
    LogFromMore(p, q, run[k]);
    NextFrom(q, cl, run[k], acts[k], run[k + 1]);
  }

  lemma {:induction false} ProposedWhen(acts: seq<Action>, t: nat, cmd: Command) returns (k: nat)
    requires t <= |acts| && cmd in ProposedBy(acts, t)
    ensures k < t && cmd in CommandsOf(acts[k].e)
    decreases t
  {
    if cmd in CommandsOf(acts[t - 1].e) { k := t - 1; } else { k := ProposedWhen(acts, t - 1, cmd); }
  }

  /** Every logged command, at any node and time of any run, was proposed by a client before. */
  lemma LoggedWasProposed(cl: Cluster, run: seq<State>, acts: seq<Action>, t: nat, i: NodeId, x: nat) returns (k: nat)
    requires IsRun(cl, run, acts) && t < |run| && i in run[t].nodes && x < |run[t].nodes[i].log|
    ensures k < t && run[t].nodes[i].log[x].command in CommandsOf(acts[k].e)
  {
    RunFrom(cl, run, acts, t);
    assert LogFrom(ProposedBy(acts, t), run[t].nodes[i].log);
    k := ProposedWhen(acts, t, run[t].nodes[i].log[x].command);
  }
}
