/** The per-node transition function: what one call of a RaftCore handler computes.
    `room` is how many entries the apply sink accepts before it refuses one. */
module RaftStep {
  import opened Common
  import opened RaftTypes

  predicate AtLeastAsUpToDate(candTerm: Term, candIndex: nat, myTerm: Term, myIndex: nat) {
    if candTerm != myTerm then candTerm > myTerm else candIndex >= myIndex
  }

  // ---- universal term rule -------------------------------------------------

  function Adopt(n: Node, t: Term): Outcome {
    if t > n.term then
      Outcome(n.(term := t, vote := None, leaderId := None, role := Follower), [SaveState(t, None)])
    else
      Outcome(n, [])
  }

  // ---- sending AppendEntries -----------------------------------------------

  /** The AppendEntries for one peer: everything from nextIndex on.
      A leader's nextIndex is never 0, so the first branch is not reached. */
  function AppendFor(c: Config, n: Node, peer: NodeId): Msg {
    var next := Get(n.nextIndex, peer);
    var prev := if next == 0 then 0 else next - 1;
    AppendEntries(n.term, c.self, prev, TermAt(n.log, prev), n.commitIndex, EntriesFrom(n.log, next))
  }

  function AppendToAll(c: Config, n: Node, peers: seq<NodeId>): (es: seq<Effect>)
    ensures |es| == |peers|
    ensures forall k :: 0 <= k < |peers| ==> es[k] == Send(peers[k], AppendFor(c, n, peers[k]))
  {
    seq(|peers|, k requires 0 <= k < |peers| => Send(peers[k], AppendFor(c, n, peers[k])))
  }

  function AskAll(m: Msg, peers: seq<NodeId>): (es: seq<Effect>)
    ensures |es| == |peers|
    ensures forall k :: 0 <= k < |peers| ==> es[k] == Send(peers[k], m)
  {
    seq(|peers|, k requires 0 <= k < |peers| => Send(peers[k], m))
  }

  // ---- elections -----------------------------------------------------------

  function FilledWith(peers: seq<NodeId>, v: nat): (m: map<NodeId, nat>)
    ensures forall p {:trigger p in m} :: p in m <==> p in peers
    ensures forall p {:trigger m[p]} :: p in m ==> m[p] == v
  {
    if peers == [] then map[] else FilledWith(peers[1..], v)[peers[0] := v]
  }

  function Elected(c: Config, n: Node): Node {
    n.(role := Leader, leaderId := Some(c.self),
       nextIndex := FilledWith(c.peers, |n.log| + 1),
       matchIndex := FilledWith(c.peers, 0))
  }

  function BecomeLeader(c: Config, n: Node): Outcome {
    Outcome(Elected(c, n), AppendToAll(c, Elected(c, n), c.peers))
  }

  function Campaigning(c: Config, n: Node): Node {
    n.(term := n.term + 1, vote := Some(c.self), role := Candidate, leaderId := None, votes := {c.self})
  }

  function StartElection(c: Config, n: Node): Outcome {
    var k := Campaigning(c, n);
    var asks := [SaveState(k.term, k.vote)]
                + AskAll(RequestVote(k.term, c.self, |k.log|, LastTerm(k.log)), c.peers);
    if |k.votes| >= c.Majority() then
      var w := BecomeLeader(c, k);
      Outcome(w.node, asks + w.effects)
    else
      Outcome(k, asks)
  }

  function Grants(n: Node, rv: Msg): bool
    requires rv.RequestVote?
  {
    && AtLeastAsUpToDate(rv.lastLogTerm, rv.lastLogIndex, LastTerm(n.log), |n.log|)
    && (n.vote.None? || n.vote.value == rv.candidateId)
  }

  function OnRequestVote(n: Node, from: NodeId, rv: Msg): Outcome
    requires rv.RequestVote?
  {
    if rv.term < n.term then
      Outcome(n, [Send(from, RequestVoteReply(n.term, false))])
    else if Grants(n, rv) then
      Outcome(n.(vote := Some(rv.candidateId)),
              [SaveState(n.term, Some(rv.candidateId)), Send(from, RequestVoteReply(n.term, true))])
    else
      Outcome(n, [Send(from, RequestVoteReply(n.term, false))])
  }

  function OnRequestVoteReply(c: Config, n: Node, from: NodeId, r: Msg): Outcome
    requires r.RequestVoteReply?
  {
    if !n.role.Candidate? || r.term != n.term || !r.voteGranted then
      Outcome(n, [])
    else
      var k := n.(votes := n.votes + {from});
      if |k.votes| >= c.Majority() then BecomeLeader(c, k) else Outcome(k, [])
  }

  // ---- handing committed entries to the state machine ------------------------

  /** Entries (lastApplied, commitIndex] go out in order until the sink refuses one.
      The bound by |log| restates entryAt's own bound; commitIndex never exceeds it. */
  function HandOff(n: Node, room: nat): Node {
    var to := Min(Min(n.commitIndex, |n.log|), n.lastApplied + room);
    if n.lastApplied < to then
      n.(lastApplied := to, handed := n.handed + n.log[n.lastApplied..to])
    else n
  }

  // ---- replication, follower side --------------------------------------------

  /** How many leading entries the log already holds after prev (same index and term). */
  function Present(log: Log, prev: nat, entries: seq<Entry>): (k: nat)
    ensures k <= |entries|
    ensures prev <= |log| ==> prev + k <= |log|
    decreases |entries|
  {
    if entries == [] || prev >= |log| || log[prev].term != entries[0].term then 0
    else 1 + Present(log, prev + 1, entries[1..])
  }

  /** First index of the run of equal terms that ends at i. */
  function FirstOfRun(log: Log, i: nat): (f: nat)
    ensures f <= i
  {
    if i > 1 && TermAt(log, i - 1) == TermAt(log, i) then FirstOfRun(log, i - 1) else i
  }

  /** Truncate at the first conflict, then append what is missing. */
  function Merge(log: Log, prev: nat, entries: seq<Entry>): Log
    requires prev <= |log|
  {
    var k := Present(log, prev, entries);
    if k < |entries| then log[..prev + k] + entries[k..] else log
  }

  function MergeEffects(log: Log, prev: nat, entries: seq<Entry>): seq<Effect>
    requires prev <= |log|
  {
    var k := Present(log, prev, entries);
    if k == |entries| then []
    else (if prev + k < |log| then [TruncateLog(prev + k + 1)] else []) + [AppendLog(entries[k..])]
  }

  function OnAppendEntries(n: Node, from: NodeId, ae: Msg, room: nat): Outcome
    requires ae.AppendEntries?
  {
    if ae.term < n.term then
      Outcome(n, [Send(from, AppendEntriesReply(n.term, false, 0, 0))])
    else if n.role.Leader? then
      Outcome(n, [])
    else
      var f := n.(leaderId := Some(ae.leaderId), role := Follower);
      if ae.prevLogIndex > |f.log| then
        Outcome(f, [Send(from, AppendEntriesReply(f.term, false, |f.log| + 1, 0))])
      else if TermAt(f.log, ae.prevLogIndex) != ae.prevLogTerm then
        Outcome(f, [Send(from, AppendEntriesReply(f.term, false, FirstOfRun(f.log, ae.prevLogIndex),
                                                  TermAt(f.log, ae.prevLogIndex)))])
      else
        Accept(f, from, ae, room)
  }

  /** The consistency check has passed: merge, advance commitIndex, acknowledge. */
  function Accept(f: Node, from: NodeId, ae: Msg, room: nat): Outcome
    requires ae.AppendEntries? && ae.prevLogIndex <= |f.log|
  {
    var merged := f.(log := Merge(f.log, ae.prevLogIndex, ae.entries));
    var confirmed := ae.prevLogIndex + |ae.entries|;
    var done := if ae.leaderCommit > merged.commitIndex
                then HandOff(merged.(commitIndex := Min(ae.leaderCommit, confirmed)), room)
                else merged;
    Outcome(done, MergeEffects(f.log, ae.prevLogIndex, ae.entries)
                  + [Send(from, AppendEntriesReply(f.term, true, confirmed, 0))])
  }

  // ---- replication, leader side ----------------------------------------------

  function Holders(matchIndex: map<NodeId, nat>, i: nat): set<NodeId> {
    set p | p in matchIndex && matchIndex[p] >= i
  }

  /** The leader's own log counts as one replica. */
  function Replicas(matchIndex: map<NodeId, nat>, i: nat): nat { 1 + |Holders(matchIndex, i)| }

  /** The downward scan of advanceCommit: the new commit index, or `low` when none is found. */
  function ScanCommit(c: Config, log: Log, cur: Term, matchIndex: map<NodeId, nat>, low: nat, i: nat): nat {
    if i <= low || TermAt(log, i) != cur then low
    else if Replicas(matchIndex, i) >= c.Majority() then i
    else ScanCommit(c, log, cur, matchIndex, low, i - 1)
  }

  function AdvanceCommit(c: Config, n: Node, room: nat): Node {
    var found := ScanCommit(c, n.log, n.term, n.matchIndex, n.commitIndex, |n.log|);
    if found > n.commitIndex then HandOff(n.(commitIndex := found), room) else n
  }

  function LastOfTerm(log: Log, t: Term, i: nat): (r: nat)
    ensures r <= i
  {
    if i == 0 then 0 else if TermAt(log, i) == t then i else LastOfTerm(log, t, i - 1)
  }

  /** nextIndex after a rejection: follow the hint, never up, never below a proven match. */
  function Backtracked(n: Node, from: NodeId, r: Msg): nat
    requires r.AppendEntriesReply?
  {
    var last := LastOfTerm(n.log, r.conflictTerm, |n.log|);
    var hint := if r.conflictTerm == 0 || last == 0 then r.conflictIndex else last + 1;
    Max(Max(Min(hint, Get(n.nextIndex, from)), Get(n.matchIndex, from) + 1), 1)
  }

  function Acked(n: Node, from: NodeId, ack: nat): Node {
    n.(matchIndex := n.matchIndex[from := ack], nextIndex := n.nextIndex[from := ack + 1])
  }

  /** An acknowledgement moved the window: try to commit, and send what the peer still lacks. */
  function AfterAck(c: Config, m: Node, from: NodeId, ack: nat, room: nat): Outcome {
    var a := AdvanceCommit(c, m, room);
    Outcome(a, if ack + 1 <= |a.log| then [Send(from, AppendFor(c, a, from))] else [])
  }

  function OnAppendEntriesReply(c: Config, n: Node, from: NodeId, r: Msg, room: nat): Outcome
    requires r.AppendEntriesReply?
  {
    if !n.role.Leader? || r.term != n.term then Outcome(n, [])
    else if r.success then
      if r.conflictIndex > |n.log| || r.conflictIndex <= Get(n.matchIndex, from) then Outcome(n, [])
      else AfterAck(c, Acked(n, from, r.conflictIndex), from, r.conflictIndex, room)
    else
      var m := n.(nextIndex := n.nextIndex[from := Backtracked(n, from, r)]);
      Outcome(m, [Send(from, AppendFor(c, m, from))])
  }

  // ---- entry points ------------------------------------------------------------

  function OnMessage(c: Config, n: Node, from: NodeId, m: Msg, room: nat): Outcome {
    match m
    case RequestVote(_, _, _, _) => OnRequestVote(n, from, m)
    case RequestVoteReply(_, _) => OnRequestVoteReply(c, n, from, m)
    case AppendEntries(_, _, _, _, _, _) => OnAppendEntries(n, from, m, room)
    case AppendEntriesReply(_, _, _, _) => OnAppendEntriesReply(c, n, from, m, room)
  }

  function Handle(c: Config, n: Node, from: NodeId, m: Msg, room: nat): Outcome {
    var a := Adopt(n, m.term);
    var b := OnMessage(c, a.node, from, m, room);
    Outcome(b.node, a.effects + b.effects)
  }

  /** tick() with its deadline passed: campaign, or as leader send heartbeats. */
  function Tick(c: Config, n: Node): Outcome {
    if n.role.Leader? then Outcome(n, AppendToAll(c, n, c.peers)) else StartElection(c, n)
  }

  function Stamped(t: Term, commands: seq<Command>): (es: seq<Entry>)
    ensures |es| == |commands|
    ensures forall k :: 0 <= k < |commands| ==> es[k] == Entry(t, commands[k])
  {
    seq(|commands|, k requires 0 <= k < |commands| => Entry(t, commands[k]))
  }

  /** proposeBatch; propose is the one-command case. */
  function Propose(c: Config, n: Node, commands: seq<Command>, room: nat): Outcome {
    if commands == [] || !n.role.Leader? then Outcome(n, [])
    else
      var es := Stamped(n.term, commands);
      var a := AdvanceCommit(c, n.(log := n.log + es), room);
      Outcome(a, [AppendLog(es)] + AppendToAll(c, a, c.peers))
  }

  /** Index given to the first command of a proposal, or None when it is not taken. */
  function ProposedAt(n: Node, commands: seq<Command>): Option<nat> {
    if commands == [] || !n.role.Leader? then None else Some(|n.log| + 1)
  }

  datatype Event =
    | TimerFires
    | Receive(from: NodeId, msg: Msg)
    | ClientProposes(commands: seq<Command>)
    | PumpApply

  function Step(c: Config, n: Node, e: Event, room: nat): Outcome {
    match e
    case TimerFires => Tick(c, n)
    case Receive(from, msg) => Handle(c, n, from, msg, room)
    case ClientProposes(commands) => Propose(c, n, commands, room)
    case PumpApply => Outcome(HandOff(n, room), [])
  }
}
