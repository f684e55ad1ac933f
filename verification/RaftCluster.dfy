/** The cluster: any number of nodes over a network that loses, duplicates and reorders, where a
    node may crash at any point of any handler and restart from its disk. Main results: Election
    Safety, Log Matching, Leader Completeness and State Machine Safety over every run. */
module RaftCluster {
  import opened Common
  import opened RaftTypes
  import opened RaftStep
  import opened RaftHistory
  import opened RaftHistorySteps
  import opened RaftInvariant
  import opened RaftHandlers
  import opened RaftCrash

  /** Each member and the peers it was configured with. */
  type Cluster = map<NodeId, seq<NodeId>>

  ghost predicate ValidCluster(cl: Cluster) {
    forall i {:trigger ConfigOk(cl.Keys, Config(i, cl[i]))} :: i in cl ==> ConfigOk(cl.Keys, Config(i, cl[i]))
  }

  /** `msgs` holds every packet ever sent: one may be delivered late, again, or never. */
  datatype State = State(nodes: map<NodeId, Node>, msgs: set<Packet>)

  datatype Action =
    | Run(i: NodeId, e: Event, room: nat)
    | Crash(i: NodeId, e: Event, room: nat, k: nat, j: nat)

  function Sent(i: NodeId, es: seq<Effect>): set<Packet> {
    set k | 0 <= k < |es| && es[k].Send? :: Packet(i, es[k].to, es[k].msg)
  }

  ghost predicate Init(cl: Cluster, s: State) {
    && s.nodes.Keys == cl.Keys && s.msgs == {}
    && forall i :: i in s.nodes ==> s.nodes[i] == Boot(0, None, [])
  }

  ghost predicate Enabled(cl: Cluster, s: State, i: NodeId, e: Event) {
    && i in cl && i in s.nodes
    && (e.Receive? ==> Packet(e.from, i, e.msg) in s.msgs)
  }

  ghost predicate Next(cl: Cluster, s: State, a: Action, s': State) {
    && Enabled(cl, s, a.i, a.e)
    && var o := Step(Config(a.i, cl[a.i]), s.nodes[a.i], a.e, a.room);
    match a
    case Run(i, _, _) =>
      s' == State(s.nodes[i := o.node], s.msgs + Sent(i, o.effects))
    case Crash(i, _, _, k, j) =>
      && k <= |o.effects|
      && s' == State(s.nodes[i := BootFrom(CrashDisk(DiskOf(s.nodes[i]), o.effects, k, j))],
                     s.msgs + Sent(i, o.effects[..k]))
  }

  /** A run: its states, and the action between each two. */
  ghost predicate IsRun(cl: Cluster, run: seq<State>, acts: seq<Action>) {
    && ValidCluster(cl)
    && |run| == |acts| + 1 && Init(cl, run[0])
    && forall k {:trigger StepAt(cl, run, acts, k)} :: 0 <= k < |acts| ==> StepAt(cl, run, acts, k)
  }

  ghost predicate StepAt(cl: Cluster, run: seq<State>, acts: seq<Action>, k: nat)
    requires k < |acts| < |run|
  {
    Next(cl, run[k], acts[k], run[k + 1])
  }

  // ---- the invariant holds in every state of every run --------------------------------------

  ghost predicate Inv(cl: Cluster, s: State, h: History) {
    && HistInv(cl.Keys, h) && s.nodes.Keys == cl.Keys
    && NodesInv(cl.Keys, s, h) && PacketsInv(cl.Keys, s, h)
  }

  ghost predicate NodesInv(ids: set<NodeId>, s: State, h: History) {
    forall i {:trigger s.nodes[i]} :: i in s.nodes ==> NodeInv(ids, h, i, s.nodes[i])
  }

  ghost predicate PacketsInv(ids: set<NodeId>, s: State, h: History) {
    forall p {:trigger p in s.msgs} :: p in s.msgs ==> PacketInv(ids, h, p)
  }

  lemma InitInv(cl: Cluster, s: State) returns (h: History)
    requires ValidCluster(cl) && Init(cl, s)
    ensures Inv(cl, s, h)
  {
    h := History(map[], map[], map[], map[], map[]);
  }

  /** One node moved and the rest stood still. */
  lemma MovedInv(cl: Cluster, s: State, h: History, i: NodeId, n: Node, es: seq<Effect>, h': History)
    requires Inv(cl, s, h) && i in cl
    requires HistInv(cl.Keys, h') && ExtendsBy(h, h', i)
    requires NodeInv(cl.Keys, h', i, n) && SendsOk(cl.Keys, h', i, es)
    ensures Inv(cl, State(s.nodes[i := n], s.msgs + Sent(i, es)), h')
  {
    AllNodesInv(cl.Keys, s, h, i, n, es, h');
    AllPacketsInv(cl.Keys, s, h, i, n, es, h');
  }

  lemma AllNodesInv(ids: set<NodeId>, s: State, h: History, i: NodeId, n: Node, es: seq<Effect>, h': History)
    requires NodesInv(ids, s, h) && HistInv(ids, h) && HistInv(ids, h') && ExtendsBy(h, h', i) && NodeInv(ids, h', i, n)
    ensures NodesInv(ids, State(s.nodes[i := n], s.msgs + Sent(i, es)), h')
  {
    var s' := State(s.nodes[i := n], s.msgs + Sent(i, es));
    forall j | j in s'.nodes ensures NodeInv(ids, h', j, s'.nodes[j]) {
      if j != i {
        assert NodeInv(ids, h, j, s.nodes[j]);
        OthersStable(ids, h, h', i, j, s.nodes[j]);
      }
    }
  }

  lemma AllPacketsInv(ids: set<NodeId>, s: State, h: History, i: NodeId, n: Node, es: seq<Effect>, h': History)
    requires PacketsInv(ids, s, h) && Grows(h, h') && SendsOk(ids, h', i, es)
    ensures PacketsInv(ids, State(s.nodes[i := n], s.msgs + Sent(i, es)), h')
  {
    forall p | p in s.msgs + Sent(i, es) ensures PacketInv(ids, h', p) {
      if p in s.msgs { PacketStable(ids, h, h', p); }
    }
  }

  lemma NextInv(cl: Cluster, s: State, a: Action, s': State, h: History) returns (h': History)
    requires ValidCluster(cl) && Inv(cl, s, h) && Next(cl, s, a, s')
    ensures Inv(cl, s', h') && Grows(h, h')
  {
    var c := Config(a.i, cl[a.i]);
    var n := s.nodes[a.i];
    assert ConfigOk(cl.Keys, c);
    var o := Step(c, n, a.e, a.room);
    match a {
      case Run(i, e, room) =>
        h' := StepInv(cl.Keys, c, h, n, e, room);
        MovedInv(cl, s, h, i, o.node, o.effects, h');
      case Crash(i, e, room, k, j) =>
        h' := CrashInv(cl.Keys, c, h, n, e, room, k, j);
        MovedInv(cl, s, h, i, BootFrom(CrashDisk(DiskOf(n), o.effects, k, j)), o.effects[..k], h');
    }
  }

  /** The histories of a run, one per state, each growing into the next. */
  ghost predicate Histories(cl: Cluster, run: seq<State>, hs: seq<History>) {
    && |hs| == |run|
    && (forall k {:trigger InvAt(cl, run, hs, k)} :: 0 <= k < |run| ==> InvAt(cl, run, hs, k))
    && (forall a, b {:trigger GrowsAt(hs, a, b)} :: 0 <= a <= b < |hs| ==> GrowsAt(hs, a, b))
  }

  ghost predicate InvAt(cl: Cluster, run: seq<State>, hs: seq<History>, k: nat)
    requires k < |run| == |hs|
  {
    Inv(cl, run[k], hs[k])
  }

  ghost predicate GrowsAt(hs: seq<History>, a: nat, b: nat)
    requires a <= b < |hs|
  {
    Grows(hs[a], hs[b])
  }

  lemma ExtendHistories(cl: Cluster, run: seq<State>, hs: seq<History>, s: State, h: History)
    requires run != [] && Histories(cl, run, hs) && Inv(cl, s, h) && Grows(hs[|hs| - 1], h)
    ensures Histories(cl, run + [s], hs + [h])
  {
    var m := |run| - 1;
    forall k | 0 <= k <= m + 1 ensures InvAt(cl, run + [s], hs + [h], k) {
      if k <= m { assert InvAt(cl, run, hs, k); }
    }
    forall a, b | 0 <= a <= b <= m + 1 ensures GrowsAt(hs + [h], a, b) {
      if b <= m {
        assert GrowsAt(hs, a, b);
      } else if a <= m {
        assert GrowsAt(hs, a, m);
        GrowsTrans(hs[a], hs[m], h);
      }
    }
  }

  lemma RunPrefix(cl: Cluster, run: seq<State>, acts: seq<Action>)
    requires IsRun(cl, run, acts) && acts != []
    ensures IsRun(cl, run[..|acts|], acts[..|acts| - 1])
  {
    var run', acts' := run[..|acts|], acts[..|acts| - 1];
    forall k | 0 <= k < |acts'| ensures StepAt(cl, run', acts', k) { assert StepAt(cl, run, acts, k); }
  }

  lemma {:induction false} RunInv(cl: Cluster, run: seq<State>, acts: seq<Action>) returns (hs: seq<History>)
    requires IsRun(cl, run, acts)
    ensures Histories(cl, run, hs)
    decreases |acts|
  {
    if acts == [] {
      hs := FirstHistory(cl, run);
    } else {
      RunPrefix(cl, run, acts);
      var m := |acts| - 1;
      var past := run[..|acts|];
      var before := RunInv(cl, past, acts[..m]);
      assert run == past + [run[m + 1]];
      assert StepAt(cl, run, acts, m);
      hs := NextHistory(cl, past, before, acts[m], run[m + 1]);
    }
  }

  lemma FirstHistory(cl: Cluster, run: seq<State>) returns (hs: seq<History>)
    requires ValidCluster(cl) && |run| == 1 && Init(cl, run[0])
    ensures Histories(cl, run, hs)
  {
    var h := InitInv(cl, run[0]);
    hs := [h];
    assert InvAt(cl, run, hs, 0);
    assert GrowsAt(hs, 0, 0);
  }

  lemma NextHistory(cl: Cluster, past: seq<State>, before: seq<History>, a: Action, s: State) returns (hs: seq<History>)
    requires ValidCluster(cl) && past != [] && Histories(cl, past, before)
    requires Next(cl, past[|past| - 1], a, s)
    ensures Histories(cl, past + [s], hs)
  {
    LastInv(cl, past, before);
    var h := NextInv(cl, past[|past| - 1], a, s, before[|past| - 1]);
    hs := before + [h];
    ExtendHistories(cl, past, before, s, h);
  }

  lemma LastInv(cl: Cluster, run: seq<State>, hs: seq<History>)
    requires run != [] && Histories(cl, run, hs)
    ensures Inv(cl, run[|run| - 1], hs[|hs| - 1])
  {
    assert InvAt(cl, run, hs, |run| - 1);
  }

  // ---- Log Matching ----------------------------------------------------------------------------

  /** Two logs, of any nodes at any two times of a run, that have equal terms at an index are
      identical up to it. */
  lemma LogMatching(cl: Cluster, run: seq<State>, acts: seq<Action>, a: nat, b: nat, i: NodeId, j: NodeId, x: nat)
    requires IsRun(cl, run, acts) && a < |run| && b < |run| && i in run[a].nodes && j in run[b].nodes
    requires var l, m := run[a].nodes[i].log, run[b].nodes[j].log;
             1 <= x <= |l| && x <= |m| && TermAt(l, x) == TermAt(m, x)
    ensures run[a].nodes[i].log[..x] == run[b].nodes[j].log[..x]
  {
    var hs := RunInv(cl, run, acts);
    var last := |run| - 1;
    assert InvAt(cl, run, hs, a) && InvAt(cl, run, hs, b);
    assert GrowsAt(hs, a, last) && GrowsAt(hs, b, last);
    TracedStable(hs[a], hs[last], run[a].nodes[i].log);
    TracedStable(hs[b], hs[last], run[b].nodes[j].log);
    LogsMatch(hs[last], run[a].nodes[i].log, run[b].nodes[j].log, x);
  }

  // ---- State Machine Safety ----------------------------------------------------------------------

  lemma HandedIsCommitted(cl: Cluster, s: State, h: History, h': History, i: NodeId)
    requires Inv(cl, s, h) && Grows(h, h') && i in s.nodes
    ensures CommittedBy(h', s.nodes[i].log[..s.nodes[i].commitIndex], s.nodes[i].term)
    ensures s.nodes[i].handed <= s.nodes[i].log[..s.nodes[i].commitIndex]
  {
    var n := s.nodes[i];
    CommittedStable(h, h', n.log[..n.commitIndex], n.term, n.term);
  }

  /** No two nodes, in any incarnation and at any times, hand different entries to their state
      machines at one index: of any two sequences handed over, one is a prefix of the other. */
  lemma StateMachineSafety(cl: Cluster, run: seq<State>, acts: seq<Action>, a: nat, b: nat, i: NodeId, j: NodeId)
    requires IsRun(cl, run, acts) && a < |run| && b < |run| && i in run[a].nodes && j in run[b].nodes
    ensures run[a].nodes[i].handed <= run[b].nodes[j].handed || run[b].nodes[j].handed <= run[a].nodes[i].handed
  {
    var hs := RunInv(cl, run, acts);
    var h := hs[|run| - 1];
    var n, m := run[a].nodes[i], run[b].nodes[j];
    assert InvAt(cl, run, hs, a) && InvAt(cl, run, hs, b) && InvAt(cl, run, hs, |run| - 1);
    assert GrowsAt(hs, a, |run| - 1) && GrowsAt(hs, b, |run| - 1);
    HandedIsCommitted(cl, run[a], hs[a], h, i);
    HandedIsCommitted(cl, run[b], hs[b], h, j);
    CommittedComparable(cl.Keys, h, n.log[..n.commitIndex], n.term, m.log[..m.commitIndex], m.term);
    PrefixesComparable(n.handed, n.log[..n.commitIndex], m.handed, m.log[..m.commitIndex]);
  }

  lemma PrefixesComparable(a: Log, x: Log, b: Log, y: Log)
    requires a <= x && b <= y && (x <= y || y <= x)
    ensures a <= b || b <= a
  {
    var z := if x <= y then y else x;
    assert a == z[..|a|] && b == z[..|b|];
  }

  // ---- Leader Completeness --------------------------------------------------------------------------

  /** A leader whose term is at least that of a node that has committed an entry holds it. */
  lemma LeaderCompleteness(cl: Cluster, run: seq<State>, acts: seq<Action>, a: nat, b: nat, i: NodeId, j: NodeId)
    requires IsRun(cl, run, acts) && a <= b < |run| && i in run[a].nodes && j in run[b].nodes
    requires run[b].nodes[j].role.Leader? && run[b].nodes[j].term >= run[a].nodes[i].term
    ensures var n := run[a].nodes[i];
            n.commitIndex <= |n.log| && n.log[..n.commitIndex] <= run[b].nodes[j].log
  {
    var hs := RunInv(cl, run, acts);
    var n, l := run[a].nodes[i], run[b].nodes[j];
    assert InvAt(cl, run, hs, a) && InvAt(cl, run, hs, b) && GrowsAt(hs, a, b);
    HandedIsCommitted(cl, run[a], hs[a], hs[b], i);
    CommittedStable(hs[b], hs[b], n.log[..n.commitIndex], n.term, l.term);
    LeaderHasCommitted(cl.Keys, hs[b], n.log[..n.commitIndex], l.term);
  }
}
