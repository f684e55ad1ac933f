/** RaftCore as the object it is: handlers that update fields in place, with their scan loops.
    Each method is proved to compute the step function that the protocol proofs are about.
    `effects` records, in order, every durable write and every message sent. */
module RaftCore {
  import opened Common
  import opened RaftTypes
  import opened RaftStep

  lemma ConcatAssoc<T>(x: seq<T>, y: seq<T>, z: seq<T>)
    ensures x + y + z == x + (y + z)
  {}

  class RaftCore {
    const self: NodeId
    const peers: seq<NodeId>

    // persistent state and log
    var term: Term
    var vote: Option<NodeId>
    var log: Log

    // volatile state
    var role: Role
    var leaderId: Option<NodeId>
    var votes: set<NodeId>
    var nextIndex: map<NodeId, nat>
    var matchIndex: map<NodeId, nat>
    var commitIndex: nat
    var lastApplied: nat
    var handed: seq<Entry>

    var effects: seq<Effect>

    function Cfg(): Config { Config(self, peers) }

    function View(): Node
      reads this
    {
      Node(term, vote, log, role, leaderId, votes, nextIndex, matchIndex, commitIndex, lastApplied, handed)
    }

    constructor (self: NodeId, peers: seq<NodeId>, term: Term, vote: Option<NodeId>, log: Log)
      ensures this.self == self && this.peers == peers
      ensures View() == Boot(term, vote, log) && effects == []
    {
      this.self, this.peers := self, peers;
      this.term, this.vote, this.log := term, vote, log;
      role, leaderId, votes := Follower, None, {};
      nextIndex, matchIndex := map[], map[];
      commitIndex, lastApplied, handed := 0, 0, [];
      effects := [];
    }

    // ---- outside world ----------------------------------------------------------------

    method Save(t: Term, v: Option<NodeId>)
      modifies this
      ensures View() == old(View()).(term := t, vote := v)
      ensures effects == old(effects) + [SaveState(t, v)]
    {
      term, vote := t, v;
      effects := effects + [SaveState(t, v)];
    }

    method SendTo(to: NodeId, m: Msg)
      modifies this`effects
      ensures effects == old(effects) + [Send(to, m)]
    {
      effects := effects + [Send(to, m)];
    }

    method LogAppend(es: seq<Entry>)
      modifies this`log, this`effects
      ensures log == old(log) + es && effects == old(effects) + [AppendLog(es)]
    {
      log := log + es;
      effects := effects + [AppendLog(es)];
    }

    method LogTruncate(i: nat)
      modifies this`log, this`effects
      ensures log == TruncatedFrom(old(log), i) && effects == old(effects) + [TruncateLog(i)]
    {
      log := if i <= 1 then [] else if i > |log| then log else log[..i - 1];
      effects := effects + [TruncateLog(i)];
    }

    // ---- sending AppendEntries ----------------------------------------------------------

    method SendAppendEntries(peer: NodeId)
      modifies this`effects
      ensures effects == old(effects) + [Send(peer, AppendFor(Cfg(), View(), peer))]
    {
      var next := Get(nextIndex, peer);
      var prev := if next == 0 then 0 else next - 1;
      SendTo(peer, AppendEntries(term, self, prev, TermAt(log, prev), commitIndex, EntriesFrom(log, next)));
    }

    method SendHeartbeats()
      modifies this`effects
      ensures effects == old(effects) + AppendToAll(Cfg(), View(), peers)
    {
      ghost var all := AppendToAll(Cfg(), View(), peers);
      for k := 0 to |peers|
        invariant View() == old(View()) && effects == old(effects) + all[..k]
      {
        SendAppendEntries(peers[k]);
        assert all[..k + 1] == all[..k] + [all[k]];
      }
      assert all[..|peers|] == all;
    }

    // ---- elections --------------------------------------------------------------------------

    method BecomeFollower(newTerm: Term)
      modifies this
      ensures newTerm > old(term) ==>
                View() == Adopt(old(View()), newTerm).node
                    && effects == old(effects) + Adopt(old(View()), newTerm).effects
      ensures newTerm <= old(term) ==> View() == old(View()).(role := Follower) && effects == old(effects)
    {
      if newTerm > term {
        Save(newTerm, None);
        leaderId := None;
      }
      role := Follower;
    }

    method ResetPeerIndices()
      modifies this`nextIndex, this`matchIndex
      ensures nextIndex == FilledWith(peers, |log| + 1) && matchIndex == FilledWith(peers, 0)
    {
      nextIndex := map[];
      matchIndex := map[];
      for k := 0 to |peers|
        invariant forall p :: p in nextIndex <==> p in peers[..k]
        invariant forall p :: p in matchIndex <==> p in peers[..k]
        invariant forall p :: p in nextIndex ==> nextIndex[p] == |log| + 1
        invariant forall p :: p in matchIndex ==> matchIndex[p] == 0
      {
        nextIndex := nextIndex[peers[k] := |log| + 1];
        matchIndex := matchIndex[peers[k] := 0];
        assert peers[..k + 1] == peers[..k] + [peers[k]];
      }
      assert peers[..|peers|] == peers;
    }

    method TakeOffice()
      modifies this
      ensures View() == Elected(Cfg(), old(View())) && effects == old(effects)
    {
      role := Leader;
      leaderId := Some(self);
      ResetPeerIndices();
      ghost var n := old(View());
      assert nextIndex == FilledWith(Cfg().peers, |n.log| + 1) && matchIndex == FilledWith(Cfg().peers, 0);
    }

    method BecomeLeader()
      modifies this
      ensures View() == RaftStep.BecomeLeader(Cfg(), old(View())).node
      ensures effects == old(effects) + RaftStep.BecomeLeader(Cfg(), old(View())).effects
    {
      TakeOffice();
      SendHeartbeats();
    }

    method StartElection()
      modifies this
      ensures View() == RaftStep.StartElection(Cfg(), old(View())).node
      ensures effects == old(effects) + RaftStep.StartElection(Cfg(), old(View())).effects
    {
      Save(term + 1, Some(self));
      role := Candidate;
      leaderId := None;
      votes := {self};
      AskForVotes(RequestVote(term, self, |log|, LastTerm(log)));
      if |votes| >= Cfg().Majority() {
        BecomeLeader();
      }
    }

    method AskForVotes(rv: Msg)
      modifies this`effects
      ensures effects == old(effects) + AskAll(rv, peers)
    {
      ghost var asks := AskAll(rv, peers);
      for k := 0 to |peers|
        invariant effects == old(effects) + asks[..k]
      {
        SendTo(peers[k], rv);
        assert asks[..k + 1] == asks[..k] + [asks[k]];
      }
      assert asks[..|peers|] == asks;
    }

    method OnRequestVote(from: NodeId, rv: Msg)
      requires rv.RequestVote?
      modifies this
      ensures View() == RaftStep.OnRequestVote(old(View()), from, rv).node
      ensures effects == old(effects) + RaftStep.OnRequestVote(old(View()), from, rv).effects
    {
      if rv.term < term {
        SendTo(from, RequestVoteReply(term, false));
        return;
      }
      var logOk := AtLeastAsUpToDate(rv.lastLogTerm, rv.lastLogIndex, LastTerm(log), |log|);
      var grant := logOk && (vote.None? || vote.value == rv.candidateId);
      if grant {
        Save(term, Some(rv.candidateId));
      }
      SendTo(from, RequestVoteReply(term, grant));
    }

    method OnRequestVoteReply(from: NodeId, r: Msg)
      requires r.RequestVoteReply?
      modifies this
      ensures View() == RaftStep.OnRequestVoteReply(Cfg(), old(View()), from, r).node
      ensures effects == old(effects) + RaftStep.OnRequestVoteReply(Cfg(), old(View()), from, r).effects
    {
      if !role.Candidate? { return; }
      if r.term != term || !r.voteGranted { return; }
      votes := votes + {from};
      if |votes| >= Cfg().Majority() {
        BecomeLeader();
      }
    }

    // ---- applying ------------------------------------------------------------------------------

    /** Hands over entries until commitIndex is reached or the sink, with room for `room`, refuses. */
    method ApplyCommitted(room: nat)
      modifies this`lastApplied, this`handed
      ensures View() == HandOff(old(View()), room)
      ensures old(lastApplied) <= commitIndex <= |log| ==>
                && old(lastApplied) <= lastApplied <= commitIndex
                && (lastApplied == commitIndex || lastApplied == old(lastApplied) + room)
                && handed == old(handed) + log[old(lastApplied)..lastApplied]
    {
      var left := room;
      while lastApplied < commitIndex && lastApplied < |log| && left > 0
        invariant old(lastApplied) <= lastApplied && lastApplied - old(lastApplied) == room - left
        invariant lastApplied > old(lastApplied) ==> lastApplied <= commitIndex && lastApplied <= |log|
        invariant handed == old(handed) + (if lastApplied == old(lastApplied) then []
            else log[old(lastApplied)..lastApplied])
        decreases left
      {
        handed := handed + [log[lastApplied]];
        lastApplied := lastApplied + 1;
        left := left - 1;
      }
    }

    // ---- follower side ----------------------------------------------------------------------------

    method OnAppendEntries(from: NodeId, ae: Msg, room: nat)
      requires ae.AppendEntries?
      modifies this
      ensures View() == RaftStep.OnAppendEntries(old(View()), from, ae, room).node
      ensures effects == old(effects) + RaftStep.OnAppendEntries(old(View()), from, ae, room).effects
    {
      if ae.term < term {
        SendTo(from, AppendEntriesReply(term, false, 0, 0));
        return;
      }
      if role.Leader? { return; }
      leaderId := Some(ae.leaderId);
      if role.Candidate? {
        BecomeFollower(term);
      }
      if ae.prevLogIndex > |log| {
        SendTo(from, AppendEntriesReply(term, false, |log| + 1, 0));
        return;
      }
      if TermAt(log, ae.prevLogIndex) != ae.prevLogTerm {
        var first := FindFirstOfRun(ae.prevLogIndex);
        SendTo(from, AppendEntriesReply(term, false, first, TermAt(log, ae.prevLogIndex)));
        return;
      }
      AcceptEntries(from, ae, room);
    }

    method AcceptEntries(from: NodeId, ae: Msg, room: nat)
      requires ae.AppendEntries? && ae.prevLogIndex <= |log|
      modifies this
      ensures View() == Accept(old(View()), from, ae, room).node
      ensures effects == old(effects) + Accept(old(View()), from, ae, room).effects
    {
      MergeEntries(ae.prevLogIndex, ae.entries);
      var confirmed := ae.prevLogIndex + |ae.entries|;
      if ae.leaderCommit > commitIndex {
        commitIndex := Min(ae.leaderCommit, confirmed);
        ApplyCommitted(room);
      }
      SendTo(from, AppendEntriesReply(term, true, confirmed, 0));
    }

    method FindFirstOfRun(at: nat) returns (first: nat)
      ensures first == FirstOfRun(log, at)
    {
      first := at;
      while first > 1 && TermAt(log, first - 1) == TermAt(log, at)
        invariant first <= at && TermAt(log, first) == TermAt(log, at)
        invariant FirstOfRun(log, at) == FirstOfRun(log, first)
      {
        first := first - 1;
      }
    }

    method MergeEntries(prev: nat, entries: seq<Entry>)
      requires prev <= |log|
      modifies this`log, this`effects
      ensures log == Merge(old(log), prev, entries)
      ensures effects == old(effects) + RaftStep.MergeEffects(old(log), prev, entries)
    {
      var i := CountPresent(prev, entries);
      if i < |entries| {
        if prev + 1 + i <= |log| {
          LogTruncate(prev + 1 + i);
        }
        LogAppend(entries[i..]);
      }
    }

    /** Skip the entries the log already holds. */
    method CountPresent(prev: nat, entries: seq<Entry>) returns (i: nat)
      requires prev <= |log|
      ensures i == Present(log, prev, entries)
    {
      i := 0;
      while i < |entries| && prev + 1 + i <= |log| && TermAt(log, prev + 1 + i) == entries[i].term
        invariant 0 <= i <= |entries| && prev + i <= |log|
        invariant Present(log, prev, entries) == i + Present(log, prev + i, entries[i..])
      {
        assert entries[i..][1..] == entries[i + 1..];
        i := i + 1;
      }
      assert i < |entries| ==> entries[i..][0] == entries[i];
    }

    // ---- leader side ---------------------------------------------------------------------------------

    method CountReplicas(n: nat) returns (replicas: nat)
      ensures replicas == Replicas(matchIndex, n)
    {
      replicas := 1;
      var left := matchIndex.Keys;
      ghost var seen: set<NodeId> := {};
      while left != {}
        invariant left <= matchIndex.Keys && seen <= Holders(matchIndex, n)
        invariant seen == Holders(matchIndex, n) - left
        invariant replicas == 1 + |seen|
        decreases left
      {
        var p :| p in left;
        if matchIndex[p] >= n {
          replicas := replicas + 1;
          seen := seen + {p};
        }
        left := left - {p};
      }
      assert seen == Holders(matchIndex, n);
    }

    method AdvanceCommit(room: nat)
      modifies this`commitIndex, this`lastApplied, this`handed
      ensures View() == RaftStep.AdvanceCommit(Cfg(), old(View()), room)
    {
      var n: nat := |log|;
      while n > commitIndex
        invariant View() == old(View()) && n <= |log|
        invariant ScanCommit(Cfg(), log, term, matchIndex, commitIndex, |log|)
                  == ScanCommit(Cfg(), log, term, matchIndex, commitIndex, n)
        decreases n
      {
        if TermAt(log, n) != term { break; }
        var replicas := CountReplicas(n);
        if replicas >= Cfg().Majority() {
          commitIndex := n;
          ApplyCommitted(room);
          return;
        }
        n := n - 1;
      }
    }

    method FindLastOfTerm(t: Term) returns (last: nat)
      ensures last == LastOfTerm(log, t, |log|)
    {
      last := |log|;
      while last >= 1 && TermAt(log, last) != t
        invariant last <= |log| && LastOfTerm(log, t, |log|) == LastOfTerm(log, t, last)
      {
        last := last - 1;
      }
    }

    method OnAppendEntriesReply(from: NodeId, r: Msg, room: nat)
      requires r.AppendEntriesReply?
      modifies this
      ensures View() == RaftStep.OnAppendEntriesReply(Cfg(), old(View()), from, r, room).node
      ensures effects == old(effects) + RaftStep.OnAppendEntriesReply(Cfg(), old(View()), from, r, room).effects
    {
      if !role.Leader? { return; }
      if r.term != term { return; }
      if r.success {
        var ack := r.conflictIndex;
        if ack > |log| { return; }
        if ack > Get(matchIndex, from) {
          matchIndex := matchIndex[from := ack];
          nextIndex := nextIndex[from := ack + 1];
          AdvanceCommit(room);
          if nextIndex[from] <= |log| { SendAppendEntries(from); }
        }
        return;
      }
      var ni := r.conflictIndex;
      if r.conflictTerm != 0 {
        var last := FindLastOfTerm(r.conflictTerm);
        ni := if last != 0 then last + 1 else r.conflictIndex;
      }
      ni := Min(ni, Get(nextIndex, from));
      ni := Max(ni, Get(matchIndex, from) + 1);
      ni := Max(ni, 1);
      nextIndex := nextIndex[from := ni];
      SendAppendEntries(from);
    }

    // ---- entry points --------------------------------------------------------------------------------------

    /** Appends a batch in one write and replicates it; yields the first command's index. */
    method ProposeBatch(commands: seq<Command>, room: nat) returns (first: Option<nat>)
      modifies this
      ensures View() == RaftStep.Propose(Cfg(), old(View()), commands, room).node
      ensures effects == old(effects) + RaftStep.Propose(Cfg(), old(View()), commands, room).effects
      ensures first == ProposedAt(old(View()), commands)
    {
      if commands == [] || !role.Leader? { return None; }
      var scratch: seq<Entry> := [];
      for k := 0 to |commands|
        invariant scratch == Stamped(term, commands)[..k] && View() == old(View()) && effects == old(effects)
      {
        scratch := scratch + [Entry(term, commands[k])];
      }
      assert scratch == Stamped(term, commands);
      LogAppend(scratch);
      first := Some(|log| - |scratch| + 1);
      AdvanceCommit(room);
      ghost var n := View();
      SendHeartbeats();
      assert effects == old(effects) + ([AppendLog(scratch)] + AppendToAll(Cfg(), n, peers));
    }

    method Propose(command: Command, room: nat) returns (index: Option<nat>)
      modifies this
      ensures View() == RaftStep.Propose(Cfg(), old(View()), [command], room).node
      ensures effects == old(effects) + RaftStep.Propose(Cfg(), old(View()), [command], room).effects
      ensures index == ProposedAt(old(View()), [command])
    {
      if !role.Leader? { return None; }
      LogAppend([Entry(term, command)]);
      assert [Entry(term, command)] == Stamped(term, [command]);
      index := Some(|log|);
      AdvanceCommit(room);
      ghost var n := View();
      SendHeartbeats();
      assert effects == old(effects) + ([AppendLog(Stamped(old(term), [command]))] + AppendToAll(Cfg(), n, peers));
    }

    method Tick()
      modifies this
      ensures View() == RaftStep.Tick(Cfg(), old(View())).node
      ensures effects == old(effects) + RaftStep.Tick(Cfg(), old(View())).effects
    {
      if !role.Leader? {
        StartElection();
      } else {
        SendHeartbeats();
      }
    }

    /** One inbound message: the universal term rule, then the handler. */
    method Handle(from: NodeId, m: Msg, room: nat)
      modifies this
      ensures View() == RaftStep.Handle(Cfg(), old(View()), from, m, room).node
      ensures effects == old(effects) + RaftStep.Handle(Cfg(), old(View()), from, m, room).effects
    {
      if m.term > term {
        BecomeFollower(m.term);
      }
      ghost var a := Adopt(old(View()), m.term);
      assert View() == a.node && effects == old(effects) + a.effects;
      Dispatch(from, m, room);
      ConcatAssoc(old(effects), a.effects, OnMessage(Cfg(), a.node, from, m, room).effects);
    }

    method Dispatch(from: NodeId, m: Msg, room: nat)
      modifies this
      ensures View() == OnMessage(Cfg(), old(View()), from, m, room).node
      ensures effects == old(effects) + OnMessage(Cfg(), old(View()), from, m, room).effects
    {
      match m {
        case RequestVote(_, _, _, _) => OnRequestVote(from, m);
        case RequestVoteReply(_, _) => OnRequestVoteReply(from, m);
        case AppendEntries(_, _, _, _, _, _) => OnAppendEntries(from, m, room);
        case AppendEntriesReply(_, _, _, _) => OnAppendEntriesReply(from, m, room);
      }
    }
  }
}
