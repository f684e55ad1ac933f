/** Whom a node names as leader: never anyone but the leader of the node's own term. */
module RaftHints {
  import opened Common
  import opened RaftTypes
  import opened RaftStep
  import opened RaftHistory
  import opened RaftHistorySteps
  import opened RaftInvariant
  import opened RaftHandlers
  import opened RaftCluster
  import opened RaftSafety

  /** The leader a node follows has won the node's term. */
  ghost predicate Follows(h: History, n: Node) {
    n.leaderId.Some? ==> n.term in h.won && h.won[n.term].leader == n.leaderId.value
  }

  /** Whoever sends an AppendEntries names itself as the leader. */
  ghost predicate NamesSender(p: Packet) { p.msg.AppendEntries? ==> p.msg.leaderId == p.from }

  ghost predicate Named(s: State, h: History) {
    && (forall i {:trigger s.nodes[i]} :: i in s.nodes ==> Follows(h, s.nodes[i]))
    && AllNameSender(s.msgs)
  }

  lemma StepSends(c: Config, n: Node, e: Event, room: nat, k: nat)
    requires var es := Step(c, n, e, room).effects; k < |es| && es[k].Send?
    ensures NamesSender(Packet(c.self, Step(c, n, e, room).effects[k].to, Step(c, n, e, room).effects[k].msg))
  {
    match e
    case TimerFires =>
    case Receive(from, m) => MessageSends(c, Adopt(n, m.term).node, from, m, room);
    case ClientProposes(cs) =>
    case PumpApply =>
  }

  lemma MessageSends(c: Config, n: Node, from: NodeId, m: Msg, room: nat)
    ensures forall k :: 0 <= k < |OnMessage(c, n, from, m, room).effects| ==>
              var x := OnMessage(c, n, from, m, room).effects[k];
              x.Send? ==> NamesSender(Packet(c.self, x.to, x.msg))
  {}

  /** What a handler leaves of the leader a node follows: the same one in the same term, none, itself as leader,
      or the sender of an AppendEntries of that term. */
  lemma StepFollows(c: Config, n: Node, e: Event, room: nat)
    ensures var n' := Step(c, n, e, room).node;
            || n'.leaderId.None?
            || (n'.leaderId == n.leaderId && n'.term == n.term)
            || (n'.leaderId == Some(c.self) && n'.role.Leader?)
            || (e.Receive? && e.msg.AppendEntries? && n'.leaderId == Some(e.msg.leaderId) && n'.term == e.msg.term)
  {
    match e
    case TimerFires =>
    case Receive(from, m) => MessageFollows(c, Adopt(n, m.term).node, from, m, room);
    case ClientProposes(cs) =>
    case PumpApply =>
  }

  lemma MessageFollows(c: Config, n: Node, from: NodeId, m: Msg, room: nat)
    requires m.term <= n.term
    ensures var n' := OnMessage(c, n, from, m, room).node;
            && n'.term == n.term
            && (n'.leaderId == n.leaderId || (n'.leaderId == Some(c.self) && n'.role.Leader?)
                || (m.AppendEntries? && n'.leaderId == Some(m.leaderId) && n.term == m.term))
  {}

  ghost predicate AllNameSender(ps: set<Packet>) { forall p {:trigger p in ps} :: p in ps ==> NamesSender(p) }

  lemma SendsName(c: Config, n: Node, e: Event, room: nat)
    ensures AllNameSender(Sent(c.self, Step(c, n, e, room).effects))
    ensures forall k :: 0 <= k <= |Step(c, n, e, room).effects| ==>
              AllNameSender(Sent(c.self, Step(c, n, e, room).effects[..k]))
  {
    var es := Step(c, n, e, room).effects;
    forall k | 0 <= k < |es| && es[k].Send? ensures NamesSender(Packet(c.self, es[k].to, es[k].msg)) {
      StepSends(c, n, e, room, k);
    }
  }

  lemma NextSends(cl: Cluster, s: State, a: Action, s': State)
    requires Next(cl, s, a, s') && AllNameSender(s.msgs)
    ensures AllNameSender(s'.msgs)
  {
    SendsName(Config(a.i, cl[a.i]), s.nodes[a.i], a.e, a.room);
  }

  lemma OthersStay(cl: Cluster, s: State, a: Action, s': State, i: NodeId)
    requires Next(cl, s, a, s') && i in s.nodes && (i != a.i || a.Crash?)
    ensures i in s'.nodes && (s'.nodes[i] == s.nodes[i] || s'.nodes[i].leaderId.None?)
  {}

  lemma FollowsStable(h: History, h': History, n: Node)
    requires Grows(h, h') && Follows(h, n)
    ensures Follows(h', n)
  {}

  lemma NextFollows(cl: Cluster, s: State, h: History, a: Action, s': State, h': History, i: NodeId)
    requires Inv(cl, s, h) && Inv(cl, s', h') && Grows(h, h') && Next(cl, s, a, s') && Named(s, h) && i in s'.nodes
    ensures Follows(h', s'.nodes[i])
  {
    if i == a.i && a.Run? {
      OwnFollows(cl, s, h, a, s', h');
    } else {
      assert Follows(h, s.nodes[i]);
      OthersStay(cl, s, a, s', i);
      FollowsStable(h, h', s.nodes[i]);
    }
  }

  lemma OwnFollows(cl: Cluster, s: State, h: History, a: Action, s': State, h': History)
    requires Inv(cl, s, h) && Inv(cl, s', h') && Grows(h, h') && Next(cl, s, a, s') && Named(s, h) && a.Run?
    ensures a.i in s'.nodes && Follows(h', s'.nodes[a.i])
  {
    var n, n' := s.nodes[a.i], s'.nodes[a.i];
    assert NodeInv(cl.Keys, h', a.i, n') && Follows(h, n);
    StepFollows(Config(a.i, cl[a.i]), n, a.e, a.room);
    if a.e.Receive? {
      assert PacketInv(cl.Keys, h, Packet(a.e.from, a.i, a.e.msg)) && NamesSender(Packet(a.e.from, a.i, a.e.msg));
    }
  }

  lemma FirstNamed(cl: Cluster, s: State, h: History)
    requires Init(cl, s)
    ensures Named(s, h)
  {}

  lemma NextNamed(cl: Cluster, run: seq<State>, acts: seq<Action>, hs: seq<History>, k: nat)
    requires IsRun(cl, run, acts) && Histories(cl, run, hs) && k < |acts| && Named(run[k], hs[k])
    ensures Named(run[k + 1], hs[k + 1])
  {
    var s, s' := run[k], run[k + 1];
    assert StepAt(cl, run, acts, k) && InvAt(cl, run, hs, k) && InvAt(cl, run, hs, k + 1) && GrowsAt(hs, k, k + 1);
    NextSends(cl, s, acts[k], s');
    forall i | i in s'.nodes ensures Follows(hs[k + 1], s'.nodes[i]) {
      NextFollows(cl, s, hs[k], acts[k], s', hs[k + 1], i);
    }
  }

  lemma {:induction false} AllNamed(cl: Cluster, run: seq<State>, acts: seq<Action>, hs: seq<History>, k: nat)
    requires IsRun(cl, run, acts) && Histories(cl, run, hs) && k < |run|
    ensures Named(run[k], hs[k])
    decreases k
  {
    if k == 0 {
      FirstNamed(cl, run[0], hs[0]);
    } else {
      AllNamed(cl, run, acts, hs, k - 1);
      NextNamed(cl, run, acts, hs, k - 1);
    }
  }

  /** The leader a node names, in any state of any run, is the only one its term ever has; a node that sends
      clients elsewhere sends them to nobody else. */
  lemma HintNamesLeader(cl: Cluster, run: seq<State>, acts: seq<Action>, a: nat, i: NodeId, b: nat, j: NodeId)
    requires IsRun(cl, run, acts) && a < |run| && b < |run| && i in run[a].nodes && j in run[b].nodes
    requires run[a].nodes[i].leaderId.Some? && Leads(run[b].nodes[j], run[a].nodes[i].term)
    ensures run[a].nodes[i].leaderId == Some(j)
  {
    var hs := RunInv(cl, run, acts);
    var last := |run| - 1;
    AllNamed(cl, run, acts, hs, a);
    assert InvAt(cl, run, hs, b) && GrowsAt(hs, a, last) && GrowsAt(hs, b, last);
    assert Follows(hs[a], run[a].nodes[i]) && NodeInv(cl.Keys, hs[b], j, run[b].nodes[j]);
  }
}
