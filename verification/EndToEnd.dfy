/** End to end: what clients of the replicated key-value store observe, over any run of the cluster with
    crashes, retries and leader changes, is linearizable. */
module EndToEnd {
  import opened Common
  import opened Wire
  import opened KvOps
  import opened Sessions
  import opened RaftTypes
  import opened RaftCluster
  import RaftSafety
  import opened RaftProvenance
  import L = Linearizability

  type Snapshot = RaftCluster.State

  // ---- the service ---------------------------------------------------------------------------------

  /** A session machine whose sound commands are key-value calls. `prefix` is the identity replies are
      matched on: the leading bytes, whether or not the rest can be read. */
  datatype Service = Service(m: Machine<Store, Bytes>, call: Bytes -> Call, prefix: Bytes -> Option<Ident>)

  ghost predicate RunsCall(sv: Service, kv: Store, cmd: Bytes) {
    sv.m.ident(cmd).Some? ==>
      sv.m.sound(cmd) && sv.m.step(kv, cmd) == ApplyOp(kv, sv.call(cmd)) && sv.prefix(cmd) == sv.m.ident(cmd)
  }

  ghost predicate KvService(sv: Service) {
    sv.m.init == map[] && forall kv, cmd {:trigger RunsCall(sv, kv, cmd)} :: RunsCall(sv, kv, cmd)
  }

  function CommandsIn(log: seq<Entry>): (cs: seq<Bytes>)
    ensures |cs| == |log| && forall k :: 0 <= k < |cs| ==> cs[k] == log[k].command
  {
    seq(|log|, k requires 0 <= k < |log| => log[k].command)
  }

  /** What the state machine of a node has been given at some time of a run. */
  ghost function Applied(run: seq<Snapshot>, t: nat, i: NodeId): seq<Bytes>
    requires t < |run| && i in run[t].nodes
  {
    CommandsIn(run[t].nodes[i].handed)
  }

  // ---- clients ----------------------------------------------------------------------------------------

  /** The acknowledgement a client took for one operation: at state `time`, `node` had applied the
      entry at `index` and answered with its result. */
  datatype Ack = Ack(time: nat, node: NodeId, index: nat)

  /** Operation i is the command ops[i], issued at action invoke[i] and then sent to any node any number
      of times. */
  datatype Clients = Clients(ops: seq<Bytes>, invoke: seq<nat>, acks: map<nat, Ack>)

  ghost predicate OpsOk(sv: Service, w: Clients) {
    && |w.invoke| == |w.ops|
    && (forall i :: 0 <= i < |w.ops| ==> sv.m.ident(w.ops[i]).Some? && sv.m.ident(w.ops[i]).value.client != 0)
    && (forall i, j :: 0 <= i < j < |w.ops| ==> sv.m.ident(w.ops[i]) != sv.m.ident(w.ops[j]))
  }

  /** Does cmd look like an operation: can it be executed, or does it begin like one? */
  ghost predicate Claims(sv: Service, w: Clients, cmd: Bytes) {
    sv.m.ident(cmd).Some? || exists i :: 0 <= i < |w.ops| && sv.prefix(cmd) == sv.prefix(w.ops[i])
  }

  /** Whatever looks like an operation at action k is one, already issued. Other bytes may come at will. */
  ghost predicate Issued(sv: Service, w: Clients, k: nat, cmd: Bytes)
    requires |w.invoke| == |w.ops|
  {
    Claims(sv, w, cmd) ==> exists i :: 0 <= i < |w.ops| && w.ops[i] == cmd && w.invoke[i] <= k
  }

  ghost predicate ProposalsOk(sv: Service, w: Clients, acts: seq<Action>)
    requires |w.invoke| == |w.ops|
  {
    forall k, cmd {:trigger Issued(sv, w, k, cmd)} :: 0 <= k < |acts| && cmd in CommandsOf(acts[k].e) ==>
      Issued(sv, w, k, cmd)
  }

  /** The reply went out for an applied entry that begins with the operation's identity. */
  ghost predicate AckOk(sv: Service, w: Clients, run: seq<Snapshot>, i: nat)
    requires i in w.acks
  {
    var a := w.acks[i];
    && i < |w.ops| && a.time < |run| && a.node in run[a.time].nodes
    && a.index < |run[a.time].nodes[a.node].handed|
    && sv.prefix(Applied(run, a.time, a.node)[a.index]) == sv.prefix(w.ops[i])
  }

  /** Operation j may be proposed at action k: every earlier operation of its client is acknowledged. */
  ghost predicate InTurn(sv: Service, w: Clients, j: nat, k: nat)
    requires OpsOk(sv, w) && j < |w.ops|
  {
    forall i {:trigger w.ops[i]} :: 0 <= i < |w.ops| && Precedes(sv, w, i, j) ==> i in w.acks && w.acks[i].time <= k
  }

  ghost predicate Precedes(sv: Service, w: Clients, i: nat, j: nat)
    requires OpsOk(sv, w) && i < |w.ops| && j < |w.ops|
  {
    var a, b := sv.m.ident(w.ops[i]).value, sv.m.ident(w.ops[j]).value;
    a.client == b.client && a.seqNo < b.seqNo
  }

  ghost predicate OneAtATime(sv: Service, w: Clients, acts: seq<Action>)
    requires OpsOk(sv, w)
  {
    forall j, k {:trigger InTurn(sv, w, j, k)} ::
      0 <= j < |w.ops| && 0 <= k < |acts| && w.ops[j] in CommandsOf(acts[k].e) ==> InTurn(sv, w, j, k)
  }

  /** A run of the cluster together with its clients. */
  ghost predicate Serves(sv: Service, cl: Cluster, run: seq<Snapshot>, acts: seq<Action>, w: Clients) {
    && KvService(sv) && IsRun(cl, run, acts) && OpsOk(sv, w)
    && ProposalsOk(sv, w, acts) && OneAtATime(sv, w, acts)
    && forall i {:trigger AckOk(sv, w, run, i)} :: i in w.acks ==> AckOk(sv, w, run, i)
  }

  // ---- what clients see -----------------------------------------------------------------------------------

  ghost function ResultOf(sv: Service, w: Clients, run: seq<Snapshot>, i: nat): Bytes
    requires i in w.acks && AckOk(sv, w, run, i)
  {
    ReplyAt(sv.m, Applied(run, w.acks[i].time, w.acks[i].node), w.acks[i].index)
  }

  /** State t comes before action k exactly when t <= k, so an action is stamped k + 1: an operation
      issued after a reply was seen is later than it. */
  ghost function Seen(sv: Service, w: Clients, run: seq<Snapshot>, i: nat): L.ClientOp
    requires i < |w.ops| == |w.invoke| && (i in w.acks ==> AckOk(sv, w, run, i))
  {
    if i in w.acks
    then L.ClientOp(sv.call(w.ops[i]), w.invoke[i] + 1, w.acks[i].time, ResultOf(sv, w, run, i))
    else L.ClientOp(sv.call(w.ops[i]), w.invoke[i] + 1, -1, [])
  }

  /** The history the checker would be given. */
  ghost function HistoryOf(sv: Service, cl: Cluster, run: seq<Snapshot>, acts: seq<Action>, w: Clients): (h: L.History)
    requires Serves(sv, cl, run, acts, w)
    ensures |h| == |w.ops|
    ensures forall i :: 0 <= i < |h| ==> (i in w.acks ==> AckOk(sv, w, run, i)) && h[i] == Seen(sv, w, run, i)
  {
    assert forall i :: i in w.acks ==> AckOk(sv, w, run, i);
    seq(|w.ops|, i requires 0 <= i < |w.ops| => Seen(sv, w, run, i))
  }

  // ---- from the cluster ---------------------------------------------------------------------------------------

  lemma AppliedComparable(cl: Cluster, run: seq<Snapshot>, acts: seq<Action>, a: nat, i: NodeId, b: nat, j: NodeId)
    requires IsRun(cl, run, acts) && a < |run| && b < |run| && i in run[a].nodes && j in run[b].nodes
    ensures Applied(run, a, i) <= Applied(run, b, j) || Applied(run, b, j) <= Applied(run, a, i)
  {
    StateMachineSafety(cl, run, acts, a, b, i, j);
  }

  lemma AppliedWasProposed(cl: Cluster, run: seq<Snapshot>, acts: seq<Action>, t: nat, i: NodeId, x: nat)
    returns (k: nat)
    requires IsRun(cl, run, acts) && t < |run| && i in run[t].nodes && x < |run[t].nodes[i].handed|
    ensures k < t && k < |acts| && Applied(run, t, i)[x] in CommandsOf(acts[k].e)
  {
    RaftSafety.CommitBounds(cl, run, acts, t, i);
    k := LoggedWasProposed(cl, run, acts, t, i, x);
  }

  /** An applied command is an operation, issued and proposed before. */
  lemma AppliedIsOp(sv: Service, cl: Cluster, run: seq<Snapshot>, acts: seq<Action>, w: Clients, t: nat, n: NodeId,
                    x: nat)
    returns (i: nat, k: nat)
    requires Serves(sv, cl, run, acts, w) && t < |run| && n in run[t].nodes && x < |run[t].nodes[n].handed|
    requires Claims(sv, w, Applied(run, t, n)[x])
    ensures i < |w.ops| && w.ops[i] == Applied(run, t, n)[x]
    ensures w.invoke[i] <= k < t && k < |acts| && w.ops[i] in CommandsOf(acts[k].e)
  {
    k := AppliedWasProposed(cl, run, acts, t, n, x);
    assert Issued(sv, w, k, Applied(run, t, n)[x]);
    i :| 0 <= i < |w.ops| && w.ops[i] == Applied(run, t, n)[x] && w.invoke[i] <= k;
  }

  // ---- the first occurrence answers ----------------------------------------------------------------------------

  /** Position k executes operation i and gives it this reply. */
  ghost predicate Executes(sv: Service, w: Clients, log: seq<Bytes>, k: nat, i: nat) {
    k < |log| && i < |w.ops| && log[k] == w.ops[i] && FreshAt(sv.m, log, k)
  }

  lemma SamePrefix(sv: Service, w: Clients, i: nat, j: nat)
    requires KvService(sv) && OpsOk(sv, w) && i < |w.ops| && j < |w.ops| && sv.prefix(w.ops[i]) == sv.prefix(w.ops[j])
    ensures i == j
  {
    assert RunsCall(sv, map[], w.ops[i]) && RunsCall(sv, map[], w.ops[j]);
  }

  /** The acknowledged result is that of the operation's execution in the applied log, no later than the
      entry that was answered. */
  lemma AckedWasExecuted(sv: Service, cl: Cluster, run: seq<Snapshot>, acts: seq<Action>, w: Clients, i: nat)
    returns (k: nat)
    requires Serves(sv, cl, run, acts, w) && i in w.acks && AckOk(sv, w, run, i)
    ensures var a := w.acks[i];
            var log := Applied(run, a.time, a.node);
            && k <= a.index && Executes(sv, w, log, k, i) && ReplyAt(sv.m, log, k) == ResultOf(sv, w, run, i)
    ensures w.invoke[i] < w.acks[i].time
  {
    var a := w.acks[i];
    var log := Applied(run, a.time, a.node);
    var j, _ := AppliedIsOp(sv, cl, run, acts, w, a.time, a.node, a.index);
    SamePrefix(sv, w, i, j);
    if FreshAt(sv.m, log, a.index) {
      k := a.index;
    } else {
      assert RunsCall(sv, map[], log[a.index]);
      var id := sv.m.ident(log[a.index]).value;
      k := TableNamesLatest(sv.m, log, a.index, id.client);
      SameOperation(sv, cl, run, acts, w, i, k);
    }
  }

  /** The client's latest executed command before an unanswered retry is the retried one. */
  lemma SameOperation(sv: Service, cl: Cluster, run: seq<Snapshot>, acts: seq<Action>, w: Clients, i: nat, k: nat)
    requires Serves(sv, cl, run, acts, w) && i in w.acks && AckOk(sv, w, run, i)
    requires var a := w.acks[i];
             var log := Applied(run, a.time, a.node);
             && log[a.index] == w.ops[i] && !FreshAt(sv.m, log, a.index) && sv.m.sound(log[a.index])
             && Latest(sv.m, log, a.index, sv.m.ident(w.ops[i]).value.client, k)
    ensures Applied(run, w.acks[i].time, w.acks[i].node)[k] == w.ops[i]
  {
    var a := w.acks[i];
    var log := Applied(run, a.time, a.node);
    var j, t := AppliedIsOp(sv, cl, run, acts, w, a.time, a.node, k);
    assert InTurn(sv, w, j, t);
    assert w.ops[i] == w.ops[i];
    assert !Precedes(sv, w, i, j);
  }
}
