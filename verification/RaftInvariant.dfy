/** The invariant that ties a node's state and the packets in flight to the history of the run,
    and its preservation by the elementary changes a handler makes. */
module RaftInvariant {
  import opened RaftTypes
  import opened RaftStep
  import opened RaftHistory
  import opened RaftHistorySteps

  datatype Packet = Packet(from: NodeId, to: NodeId, msg: Msg)

  // ---- node invariant ------------------------------------------------------------

  ghost predicate LogInv(h: History, n: Node) {
    Traced(h, n.log) && TermsAtMost(n.log, n.term)
  }

  /** Nothing recorded about node i lies in a term beyond its own, and its stored vote is its ballot. */
  ghost predicate PastInv(h: History, i: NodeId, n: Node) {
    && (forall t :: (i, t) in h.ballots ==> t <= n.term)
    && (forall t :: (i, t) in h.acks ==> t <= n.term)
    && (forall t :: t in h.won && h.won[t].leader == i ==> t <= n.term)
    && (n.vote.Some? <==> (i, n.term) in h.ballots)
    && (n.vote.Some? ==> h.ballots[(i, n.term)].cand == n.vote.value)
  }

  ghost predicate KeptInv(h: History, i: NodeId, n: Node) {
    forall t {:trigger AckKept(h, i, n.log, n.term, t)} :: (i, t) in h.acks ==> AckKept(h, i, n.log, n.term, t)
  }

  ghost predicate AckKept(h: History, i: NodeId, log: Log, term: Term, t: Term) {
    && (i, t) in h.acks && t in h.leaderLog && h.acks[(i, t)] <= |h.leaderLog[t]|
    && AllKept(h, log, t, h.acks[(i, t)], term + 1)
  }

  /** A candidate's log has not changed since it campaigned, and its votes were cast for it. */
  ghost predicate CandidateInv(ids: set<NodeId>, h: History, i: NodeId, n: Node) {
    n.role.Candidate? ==>
      && (i, n.term) in h.ballots && h.ballots[(i, n.term)] == Ballot(i, n.log)
      && i in n.votes && n.votes <= ids
      && (forall v :: v in n.votes ==> (v, n.term) in h.ballots && h.ballots[(v, n.term)].cand == i)
      && !(n.term in h.won && h.won[n.term].leader == i)
  }

  ghost predicate LeaderInv(ids: set<NodeId>, h: History, i: NodeId, n: Node) {
    n.role.Leader? ==>
      && n.term in h.won && h.won[n.term].leader == i
      && n.term in h.leaderLog && h.leaderLog[n.term] == n.log
      && (i, n.term) in h.acks && h.acks[(i, n.term)] == |n.log|
      && (forall p :: p in n.matchIndex ==> MatchInv(ids, h, i, n, p))
      && (forall p :: p in n.nextIndex ==> Get(n.matchIndex, p) < n.nextIndex[p] <= |n.log| + 1)
      && (forall p :: p in ids && p != i ==> p in n.nextIndex)
      && (n.term in h.commits ==> h.commits[n.term].upto <= n.commitIndex)
  }

  /** matchIndex only counts what the peer has acknowledged in this term. */
  ghost predicate MatchInv(ids: set<NodeId>, h: History, i: NodeId, n: Node, p: NodeId)
    requires p in n.matchIndex
  {
    && p in ids && p != i
    && (n.matchIndex[p] > 0 ==> (p, n.term) in h.acks && n.matchIndex[p] <= h.acks[(p, n.term)])
  }

  ghost predicate CommitInv(h: History, n: Node) {
    && n.lastApplied <= n.commitIndex <= |n.log|
    && n.handed == n.log[..n.lastApplied]
    && CommittedBy(h, n.log[..n.commitIndex], n.term)
  }

  ghost predicate NodeInv(ids: set<NodeId>, h: History, i: NodeId, n: Node) {
    && i in ids
    && LogInv(h, n)
    && PastInv(h, i, n)
    && KeptInv(h, i, n)
    && CandidateInv(ids, h, i, n)
    && LeaderInv(ids, h, i, n)
    && CommitInv(h, n)
  }

  // ---- packet invariant ------------------------------------------------------------

  ghost predicate PacketInv(ids: set<NodeId>, h: History, p: Packet) {
    && p.from in ids && p.to in ids && p.from != p.to
    && match p.msg
       case RequestVote(t, c, lastIndex, lastTerm) =>
         && c == p.from && (c, t) in h.ballots && h.ballots[(c, t)].cand == c
         && var camp := h.ballots[(c, t)].log;
         lastIndex == |camp| && lastTerm == LastTerm(camp)
       case RequestVoteReply(t, granted) =>
         granted ==> (p.from, t) in h.ballots && h.ballots[(p.from, t)].cand == p.to
       case AppendEntries(t, l, prev, prevTerm, lc, es) =>
         && t in h.won && h.won[t].leader == p.from && t in h.leaderLog
         && prev + |es| <= |h.leaderLog[t]|
         && es == h.leaderLog[t][prev..prev + |es|] && prevTerm == TermAt(h.leaderLog[t], prev)
         && lc <= prev + |es| && CommittedBy(h, h.leaderLog[t][..lc], t)
       case AppendEntriesReply(t, success, k, _) =>
         success ==> (p.from, t) in h.acks && k <= h.acks[(p.from, t)]
  }

  // ---- growth of the history by another node -----------------------------------------

  lemma LogStable(h: History, h': History, n: Node)
    requires LogsGrow(h, h') && LogInv(h, n)
    ensures LogInv(h', n)
  {
    TracedStable(h, h', n.log);
  }

  lemma AckKeptStable(h: History, h': History, i: NodeId, log: Log, term: Term, t: Term)
    requires Grows(h, h') && LeaderLogsGrown(h) && LeaderLogsGrown(h')
    requires AckKept(h, i, log, term, t) && h'.acks[(i, t)] == h.acks[(i, t)]
    ensures AckKept(h', i, log, term, t)
  {
    AllKeptStable(h, h', log, t, h.acks[(i, t)], term + 1);
  }

  lemma KeptInvStable(h: History, h': History, i: NodeId, n: Node)
    requires Grows(h, h') && LeaderLogsGrown(h) && LeaderLogsGrown(h') && KeptInv(h, i, n)
    requires forall t :: (i, t) in h'.acks ==> (i, t) in h.acks && h'.acks[(i, t)] == h.acks[(i, t)]
    ensures KeptInv(h', i, n)
  {
    forall t | (i, t) in h'.acks ensures AckKept(h', i, n.log, n.term, t) {
      assert AckKept(h, i, n.log, n.term, t);
      AckKeptStable(h, h', i, n.log, n.term, t);
    }
  }

  lemma CommitInvStable(h: History, h': History, n: Node)
    requires Grows(h, h') && CommitInv(h, n)
    ensures CommitInv(h', n)
  {
    CommittedStable(h, h', n.log[..n.commitIndex], n.term, n.term);
  }

  lemma OthersStable(ids: set<NodeId>, h: History, h': History, i: NodeId, j: NodeId, n: Node)
    requires HistInv(ids, h) && HistInv(ids, h') && ExtendsBy(h, h', i)
    requires i != j && NodeInv(ids, h, j, n)
    ensures NodeInv(ids, h', j, n)
  {
    LogStable(h, h', n);
    KeptInvStable(h, h', j, n);
    CommitInvStable(h, h', n);
    assert PastInv(h', j, n);
    assert CandidateInv(ids, h', j, n);
    OtherLeaderStable(ids, h, h', i, j, n);
  }

  lemma OtherLeaderStable(ids: set<NodeId>, h: History, h': History, i: NodeId, j: NodeId, n: Node)
    requires ExtendsBy(h, h', i) && i != j && LeaderInv(ids, h, j, n)
    ensures LeaderInv(ids, h', j, n)
  {
    if n.role.Leader? {
      forall p | p in n.matchIndex ensures MatchInv(ids, h', j, n, p) { assert MatchInv(ids, h, j, n, p); }
      assert n.term in h'.leaderLog && h'.leaderLog[n.term] == n.log;
    }
  }

  lemma PacketStable(ids: set<NodeId>, h: History, h': History, p: Packet)
    requires Grows(h, h') && PacketInv(ids, h, p)
    ensures PacketInv(ids, h', p)
  {
    if p.msg.AppendEntries? {
      var t, prev, m, lc := p.msg.term, p.msg.prevLogIndex, |p.msg.entries|, p.msg.leaderCommit;
      assert h.leaderLog[t] <= h'.leaderLog[t];
      assert h'.leaderLog[t][..|h.leaderLog[t]|] == h.leaderLog[t];
      assert h'.leaderLog[t][prev..prev + m] == h.leaderLog[t][prev..prev + m];
      assert h'.leaderLog[t][..lc] == h.leaderLog[t][..lc];
      CommittedStable(h, h', h.leaderLog[t][..lc], t, t);
    }
  }

  // ---- restart and the universal term rule ---------------------------------------------

  lemma RestartInv(ids: set<NodeId>, h: History, i: NodeId, n: Node)
    requires NodeInv(ids, h, i, n)
    ensures NodeInv(ids, h, i, Restarted(n))
  {
    var r := Restarted(n);
    forall t | (i, t) in h.acks ensures AckKept(h, i, r.log, r.term, t) { assert AckKept(h, i, n.log, n.term, t); }
  }

  lemma KeptWeaken(h: History, log: Log, t: Term, top: nat, b: Term, b': Term)
    requires t in h.leaderLog && top <= |h.leaderLog[t]| && b <= b' && AllKept(h, log, t, top, b)
    ensures AllKept(h, log, t, top, b')
  {
    forall k | 0 <= k <= top ensures Kept(h, log, t, k, b') { assert Kept(h, log, t, k, b); }
  }

  lemma AdoptInv(ids: set<NodeId>, h: History, i: NodeId, n: Node, t: Term)
    requires NodeInv(ids, h, i, n)
    ensures NodeInv(ids, h, i, Adopt(n, t).node)
  {
    if t > n.term {
      var n' := Adopt(n, t).node;
      forall s | (i, s) in h.acks ensures AckKept(h, i, n'.log, n'.term, s) {
        assert AckKept(h, i, n.log, n.term, s);
        KeptWeaken(h, n.log, s, h.acks[(i, s)], n.term + 1, t + 1);
      }
      CommittedStable(h, h, n.log[..n.commitIndex], n.term, t);
    }
  }
}
