/** Every handler of a node keeps the invariant: it extends the history, and its new state and
    all it sends are justified by the extended history. */
module RaftHandlers {
  import opened Common
  import opened RaftTypes
  import opened RaftStep
  import opened RaftHistory
  import opened RaftHistorySteps
  import opened RaftInvariant

  /** c.peers lists every other member of the cluster once. */
  ghost predicate ConfigOk(ids: set<NodeId>, c: Config) {
    && c.self in ids
    && (forall p :: p in c.peers <==> p in ids && p != c.self)
    && |c.peers| + 1 == |ids|
  }

  ghost predicate SendsOk(ids: set<NodeId>, h: History, i: NodeId, es: seq<Effect>) {
    forall k :: 0 <= k < |es| && es[k].Send? ==> PacketInv(ids, h, Packet(i, es[k].to, es[k].msg))
  }

  ghost predicate Justified(ids: set<NodeId>, h: History, h': History, i: NodeId, o: Outcome) {
    && HistInv(ids, h') && ExtendsBy(h, h', i)
    && NodeInv(ids, h', i, o.node) && SendsOk(ids, h', i, o.effects)
  }

  ghost predicate Ready(ids: set<NodeId>, c: Config, h: History, n: Node) {
    ConfigOk(ids, c) && HistInv(ids, h) && NodeInv(ids, h, c.self, n)
  }

  lemma SendsStable(ids: set<NodeId>, h: History, h': History, i: NodeId, es: seq<Effect>)
    requires Grows(h, h') && SendsOk(ids, h, i, es)
    ensures SendsOk(ids, h', i, es)
  {
    forall k | 0 <= k < |es| && es[k].Send? ensures PacketInv(ids, h', Packet(i, es[k].to, es[k].msg)) {
      PacketStable(ids, h, h', Packet(i, es[k].to, es[k].msg));
    }
  }

  lemma SendsConcat(ids: set<NodeId>, h: History, i: NodeId, a: seq<Effect>, b: seq<Effect>)
    requires SendsOk(ids, h, i, a) && SendsOk(ids, h, i, b)
    ensures SendsOk(ids, h, i, a + b)
  {
    forall k | 0 <= k < |a + b| && (a + b)[k].Send?
      ensures PacketInv(ids, h, Packet(i, (a + b)[k].to, (a + b)[k].msg))
    {
      if k < |a| { assert (a + b)[k] == a[k]; } else { assert (a + b)[k] == b[k - |a|]; }
    }
  }

  // ---- sending -------------------------------------------------------------------

  lemma AppendForOk(ids: set<NodeId>, c: Config, h: History, n: Node, peer: NodeId)
    requires Ready(ids, c, h, n) && n.role.Leader? && peer in ids && peer != c.self
    ensures PacketInv(ids, h, Packet(c.self, peer, AppendFor(c, n, peer)))
  {
    var m := AppendFor(c, n, peer);
    var prev := m.prevLogIndex;
    assert prev + 1 == n.nextIndex[peer] <= |n.log| + 1;
    assert m.entries == n.log[prev..];
  }

  lemma AppendToAllOk(ids: set<NodeId>, c: Config, h: History, n: Node)
    requires Ready(ids, c, h, n) && n.role.Leader?
    ensures SendsOk(ids, h, c.self, AppendToAll(c, n, c.peers))
  {
    var es := AppendToAll(c, n, c.peers);
    forall k | 0 <= k < |es| ensures PacketInv(ids, h, Packet(c.self, es[k].to, es[k].msg)) {
      assert c.peers[k] in c.peers;
      AppendForOk(ids, c, h, n, c.peers[k]);
    }
  }

  // ---- elections -----------------------------------------------------------------

  lemma CampaignInv(ids: set<NodeId>, c: Config, h: History, n: Node) returns (h': History)
    requires Ready(ids, c, h, n)
    ensures HistInv(ids, h') && ExtendsBy(h, h', c.self) && NodeInv(ids, h', c.self, Campaigning(c, n))
  {
    var i, t := c.self, n.term + 1;
    var k := Campaigning(c, n);
    var b := Ballot(i, n.log);
    forall s | (i, s) in h.acks && s < t ensures AckSound(ids, h, i, s) && AllKept(h, b.log, s, h.acks[(i, s)], t + 1) {
      assert AckKept(h, i, n.log, n.term, s);
      KeptWeaken(h, n.log, s, h.acks[(i, s)], t, t + 1);
    }
    BallotKeepsHist(ids, h, i, t, b);
    h' := WithBallot(h, i, t, b);
    CampaignKept(h, h', i, n);
    CampaignNode(ids, h, h', c, n);
  }

  lemma CampaignNode(ids: set<NodeId>, h: History, h': History, c: Config, n: Node)
    requires NodeInv(ids, h, c.self, n) && h' == WithBallot(h, c.self, n.term + 1, Ballot(c.self, n.log))
        && Grows(h, h')
    requires KeptInv(h', c.self, Campaigning(c, n))
    ensures NodeInv(ids, h', c.self, Campaigning(c, n))
  {
    LogStable(h, h', n);
    CommittedStable(h, h', n.log[..n.commitIndex], n.term, n.term + 1);
  }

  lemma CampaignKept(h: History, h': History, i: NodeId, n: Node)
    requires KeptInv(h, i, n) && h' == WithBallot(h, i, n.term + 1, Ballot(i, n.log)) && Grows(h, h')
    requires LeaderLogsGrown(h) && LeaderLogsGrown(h')
    ensures KeptInv(h', i, Campaigning(Config(i, []), n))
  {
    var t := n.term + 1;
    forall s | (i, s) in h'.acks ensures AckKept(h', i, n.log, t, s) {
      assert AckKept(h, i, n.log, n.term, s);
      AllKeptStable(h, h', n.log, s, h.acks[(i, s)], t);
      KeptWeaken(h', n.log, s, h.acks[(i, s)], t, t + 1);
    }
  }

  /** The vote requests a campaigner sends describe its log. */
  lemma AskAllOk(ids: set<NodeId>, c: Config, h: History, k: Node)
    requires Ready(ids, c, h, k) && k.role.Candidate?
    ensures SendsOk(ids, h, c.self, AskAll(RequestVote(k.term, c.self, |k.log|, LastTerm(k.log)), c.peers))
  {
    var es := AskAll(RequestVote(k.term, c.self, |k.log|, LastTerm(k.log)), c.peers);
    forall m | 0 <= m < |es| ensures PacketInv(ids, h, Packet(c.self, es[m].to, es[m].msg)) {
      assert c.peers[m] in c.peers;
    }
  }

  lemma WinInv(ids: set<NodeId>, c: Config, h: History, k: Node) returns (h': History)
    requires Ready(ids, c, h, k) && k.role.Candidate? && |k.votes| >= c.Majority()
    ensures Justified(ids, h, h', c.self, BecomeLeader(c, k))
  {
    h' := ElectedInv(ids, c, h, k);
    AppendToAllOk(ids, c, h', Elected(c, k));
  }

  lemma ElectedInv(ids: set<NodeId>, c: Config, h: History, k: Node) returns (h': History)
    requires Ready(ids, c, h, k) && k.role.Candidate? && |k.votes| >= c.Majority()
    ensures HistInv(ids, h') && ExtendsBy(h, h', c.self) && NodeInv(ids, h', c.self, Elected(c, k))
  {
    FreshTerm(ids, c, h, k);
    WinKeepsHist(ids, h, c.self, k.term, k.votes, k.log);
    h' := WithWin(h, c.self, k.term, k.votes, k.log);
    NewLeaderKept(c, h, k, h');
    NewLeaderInv(ids, c, h, k, h');
    LogStable(h, h', k);
    CommitInvStable(h, h', k);
    NewLeaderPast(h, c.self, k, h');
  }

  lemma NewLeaderPast(h: History, i: NodeId, k: Node, h': History)
    requires PastInv(h, i, k) && h' == WithWin(h, i, k.term, k.votes, k.log)
    ensures PastInv(h', i, k)
  {}

  /** When a candidate reaches a majority its term has had no leader yet. */
  lemma FreshTerm(ids: set<NodeId>, c: Config, h: History, k: Node)
    requires Ready(ids, c, h, k) && k.role.Candidate? && |k.votes| >= c.Majority()
    ensures Quorum(ids, k.votes) && k.term !in h.won && k.term !in h.commits && (c.self, k.term) !in h.acks
  {
    if k.term in h.won {
      NoSecondWinner(ids, h, c.self, k.term, k.votes);
      assert false;
    }
    if k.term in h.commits {
      CommitHasLeader(ids, h, k.term);
      assert false;
    }
    if (c.self, k.term) in h.acks {
      AckHasLeader(ids, h, c.self, k.term);
      assert false;
    }
  }

  lemma CommitHasLeader(ids: set<NodeId>, h: History, t: Term)
    requires HistInv(ids, h) && t in h.commits
    ensures t in h.won
  {
    assert CommitBacked(ids, h, t);
  }

  lemma AckHasLeader(ids: set<NodeId>, h: History, v: NodeId, t: Term)
    requires HistInv(ids, h) && (v, t) in h.acks
    ensures t in h.won
  {
    assert AckSound(ids, h, v, t);
  }

  lemma NewLeaderKept(c: Config, h: History, k: Node, h': History)
    requires KeptInv(h, c.self, k) && h' == WithWin(h, c.self, k.term, k.votes, k.log)
    requires LeaderLogsGrown(h) && LeaderLogsGrown(h') && Grows(h, h')
    ensures KeptInv(h', c.self, Elected(c, k))
  {
    var i, t := c.self, k.term;
    var l := Elected(c, k);
    forall s | (i, s) in h'.acks ensures AckKept(h', i, l.log, l.term, s) {
      if s != t {
        assert AckKept(h, i, k.log, k.term, s);
        AckKeptStable(h, h', i, k.log, k.term, s);
      } else {
        OwnPrefixKept(h', l.log, t, t + 1);
      }
    }
  }

  lemma OwnPrefixKept(h: History, log: Log, t: Term, bound: Term)
    requires t in h.leaderLog && h.leaderLog[t] == log
    ensures AllKept(h, log, t, |log|, bound)
  {
    forall k | 0 <= k <= |log| ensures Kept(h, log, t, k, bound) {
      assert log[..k] <= log;
    }
  }

  lemma NewLeaderInv(ids: set<NodeId>, c: Config, h: History, k: Node, h': History)
    requires ConfigOk(ids, c) && h' == WithWin(h, c.self, k.term, k.votes, k.log)
    requires k.term !in h.commits
    ensures LeaderInv(ids, h', c.self, Elected(c, k))
  {
    var l := Elected(c, k);
    forall p | p in l.matchIndex ensures MatchInv(ids, h', c.self, l, p) {}
  }

  lemma StartElectionInv(ids: set<NodeId>, c: Config, h: History, n: Node) returns (h': History)
    requires Ready(ids, c, h, n)
    ensures Justified(ids, h, h', c.self, StartElection(c, n))
  {
    var k := Campaigning(c, n);
    var h1 := CampaignInv(ids, c, h, n);
    var save, asks := [SaveState(k.term, k.vote)], AskAll(RequestVote(k.term, c.self, |k.log|, LastTerm(k.log)),
        c.peers);
    AskAllOk(ids, c, h1, k);
    SendsConcat(ids, h1, c.self, save, asks);
    if |k.votes| >= c.Majority() {
      h' := WinInv(ids, c, h1, k);
      ExtendsTrans(h, h1, h', c.self);
      SendsStable(ids, h1, h', c.self, save + asks);
      SendsConcat(ids, h', c.self, save + asks, BecomeLeader(c, k).effects);
    } else {
      h' := h1;
    }
  }

  lemma VoteInv(ids: set<NodeId>, c: Config, h: History, n: Node, from: NodeId, rv: Msg) returns (h': History)
    requires Ready(ids, c, h, n) && rv.RequestVote? && rv.term <= n.term
    requires PacketInv(ids, h, Packet(from, c.self, rv))
    ensures Justified(ids, h, h', c.self, OnRequestVote(n, from, rv))
  {
    var i := c.self;
    h' := h;
    ExtendsRefl(h, i);
    if rv.term == n.term && Grants(n, rv) && n.vote.None? {
      h' := FirstVoteInv(ids, c, h, n, from, rv);
    }
  }

  lemma FirstVoteInv(ids: set<NodeId>, c: Config, h: History, n: Node, from: NodeId, rv: Msg) returns (h': History)
    requires Ready(ids, c, h, n) && rv.RequestVote? && rv.term == n.term && Grants(n, rv) && n.vote.None?
    requires PacketInv(ids, h, Packet(from, c.self, rv))
    ensures Justified(ids, h, h', c.self, OnRequestVote(n, from, rv))
  {
    var i, t := c.self, n.term;
    var b := Ballot(rv.candidateId, n.log);
    assert BallotSound(ids, h, rv.candidateId, t);
    forall s | (i, s) in h.acks && s < t ensures AckSound(ids, h, i, s) && AllKept(h, b.log, s, h.acks[(i, s)], t + 1) {
      assert AckKept(h, i, n.log, n.term, s);
    }
    BallotKeepsHist(ids, h, i, t, b);
    h' := WithBallot(h, i, t, b);
    VotedInv(ids, h, h', i, n, rv.candidateId);
  }

  lemma VotedInv(ids: set<NodeId>, h: History, h': History, i: NodeId, n: Node, cand: NodeId)
    requires HistInv(ids, h) && HistInv(ids, h') && NodeInv(ids, h, i, n) && n.vote.None?
    requires h' == WithBallot(h, i, n.term, Ballot(cand, n.log))
    ensures NodeInv(ids, h', i, n.(vote := Some(cand)))
  {
    var n' := n.(vote := Some(cand));
    LogStable(h, h', n);
    KeptInvStable(h, h', i, n);
    CommitInvStable(h, h', n);
    forall s | (i, s) in h'.acks ensures AckKept(h', i, n'.log, n'.term, s) { assert AckKept(h', i, n.log, n.term, s); }
    forall p | p in n.matchIndex && n.role.Leader?
      ensures MatchInv(ids, h', i, n', p)
    {
      assert MatchInv(ids, h, i, n, p);
    }
  }

  lemma VoteReplyInv(ids: set<NodeId>, c: Config, h: History, n: Node, from: NodeId, r: Msg) returns (h': History)
    requires Ready(ids, c, h, n) && r.RequestVoteReply?
    requires PacketInv(ids, h, Packet(from, c.self, r))
    ensures Justified(ids, h, h', c.self, OnRequestVoteReply(c, n, from, r))
  {
    h' := h;
    ExtendsRefl(h, c.self);
    if n.role.Candidate? && r.term == n.term && r.voteGranted {
      CountedInv(ids, c, h, n, from, r);
      if |n.votes + {from}| >= c.Majority() {
        h' := WinInv(ids, c, h, n.(votes := n.votes + {from}));
      }
    }
  }

  lemma CountedInv(ids: set<NodeId>, c: Config, h: History, n: Node, from: NodeId, r: Msg)
    requires Ready(ids, c, h, n) && r.RequestVoteReply? && PacketInv(ids, h, Packet(from, c.self, r))
    requires n.role.Candidate? && r.term == n.term && r.voteGranted
    ensures NodeInv(ids, h, c.self, n.(votes := n.votes + {from}))
  {
    forall s | (c.self, s) in h.acks ensures AckKept(h, c.self, n.log, n.term, s) {}
  }

  // ---- follower side -----------------------------------------------------------------

  /** log' is part of the old log or of the leader's log l, and keeps all that the two share. */
  ghost predicate Follows(log: Log, l: Log, log': Log) {
    && (log' <= log || log' <= l)
    && (forall m :: 0 <= m <= |log| && log[..m] <= l ==> log[..m] <= log')
  }

  lemma {:induction false} PresentAgrees(h: History, log: Log, prev: nat, es: seq<Entry>, l: Log)
    requires Traced(h, log) && Traced(h, l)
    requires prev <= |log| && prev + |es| <= |l| && es == l[prev..prev + |es|]
    requires log[..prev] == l[..prev]
    ensures var k := Present(log, prev, es);
            && log[..prev + k] == l[..prev + k]
            && (k < |es| && prev + k < |log| ==> log[prev + k].term != l[prev + k].term)
    decreases |es|
  {
    if es != [] && prev < |log| && log[prev].term == es[0].term {
      LogsMatch(h, log, l, prev + 1);
      assert es[1..] == l[prev + 1..prev + 1 + |es[1..]|];
      PresentAgrees(h, log, prev + 1, es[1..], l);
    }
  }

  lemma PrevAgrees(h: History, log: Log, prev: nat, l: Log)
    requires Traced(h, log) && Traced(h, l) && prev <= |log| && prev <= |l|
    requires TermAt(log, prev) == TermAt(l, prev)
    ensures log[..prev] == l[..prev]
  {
    if prev > 0 { LogsMatch(h, log, l, prev); }
  }

  /** Up to the first conflict the log agrees with the leader's log l. */
  lemma MergePoint(h: History, log: Log, prev: nat, es: seq<Entry>, l: Log)
    requires Traced(h, log) && Traced(h, l)
    requires prev <= |log| && prev + |es| <= |l| && es == l[prev..prev + |es|]
    requires TermAt(log, prev) == TermAt(l, prev)
    ensures Diverges(log, prev + Present(log, prev, es), prev + |es|, l)
  {
    PrevAgrees(h, log, prev, l);
    PresentAgrees(h, log, prev, es, l);
  }

  /** log and l agree up to s and, if neither ends there and s is below top, differ right after. */
  ghost predicate Diverges(log: Log, s: nat, top: nat, l: Log) {
    && s <= |log| && s <= top <= |l| && log[..s] == l[..s]
    && (s < top && s < |log| ==> log[s].term != l[s].term)
  }

  /** Each stage of the merge (truncated, and with any part of the missing entries appended)
      follows the leader's log. */
  lemma {:induction false} MergeFollows(log: Log, prev: nat, es: seq<Entry>, l: Log, j: nat)
    requires prev <= |log| && prev + |es| <= |l| && es == l[prev..prev + |es|]
    requires Diverges(log, prev + Present(log, prev, es), prev + |es|, l)
    requires Present(log, prev, es) < |es| && j <= |es| - Present(log, prev, es)
    ensures var k := Present(log, prev, es);
            && log[..prev + k] + es[k..][..j] == l[..prev + k + j]
            && Follows(log, l, l[..prev + k + j])
  {
    var k := Present(log, prev, es);
    assert es[k..][..j] == l[prev + k..prev + k + j];
    SharedKept(log, l, prev + k, j);
  }

  lemma SharedKept(log: Log, l: Log, s: nat, j: nat)
    requires s <= |log| && s + j <= |l| && log[..s] == l[..s]
    requires s < |log| ==> s < |l| && log[s].term != l[s].term
    ensures Follows(log, l, l[..s + j])
  {
    forall m | 0 <= m <= |log| && log[..m] <= l ensures log[..m] <= l[..s + j] {
      assert forall x :: 0 <= x < m ==> log[x] == log[..m][x] == l[x];
      assert log[..m] == l[..m];
    }
  }

  lemma MergeHolds(log: Log, prev: nat, es: seq<Entry>, l: Log)
    requires prev <= |log| && prev + |es| <= |l| && es == l[prev..prev + |es|]
    requires Diverges(log, prev + Present(log, prev, es), prev + |es|, l)
    ensures Follows(log, l, Merge(log, prev, es)) && l[..prev + |es|] <= Merge(log, prev, es)
  {
    var k := Present(log, prev, es);
    if k < |es| {
      MergeFollows(log, prev, es, l, |es| - k);
      assert es[k..][..|es| - k] == es[k..];
    }
  }

  lemma FollowInv(ids: set<NodeId>, h: History, i: NodeId, n: Node, log': Log)
    requires HistInv(ids, h) && NodeInv(ids, h, i, n) && n.role.Follower? && n.term in h.won
    requires n.term in h.leaderLog && Follows(n.log, h.leaderLog[n.term], log')
    ensures NodeInv(ids, h, i, n.(log := log'))
    ensures n.commitIndex <= |log'| && n.log[..n.commitIndex] == log'[..n.commitIndex]
  {
    var l := h.leaderLog[n.term];
    assert LeaderLogGrown(h, n.term);
    PartTraced(h, n.log, l, n.term, log');
    FollowKept(ids, h, i, n, log');
    var p := n.log[..n.commitIndex];
    LeaderHasCommitted(ids, h, p, n.term);
    assert p <= log';
    assert log'[..n.commitIndex] == p;
    assert log'[..n.lastApplied] == p[..n.lastApplied];
  }

  lemma PartTraced(h: History, log: Log, l: Log, t: Term, log': Log)
    requires Traced(h, log) && TermsAtMost(log, t) && Traced(h, l) && TermsAtMost(l, t)
    requires log' <= log || log' <= l
    ensures Traced(h, log') && TermsAtMost(log', t)
  {
    var w := if log' <= log then log else l;
    forall k | 0 <= k < |log'| ensures TracedAt(h, log', k) && log'[k].term <= t {
      assert TracedAt(h, w, k) && log'[..k + 1] == w[..k + 1];
    }
  }

  lemma FollowKept(ids: set<NodeId>, h: History, i: NodeId, n: Node, log': Log)
    requires HistInv(ids, h) && NodeInv(ids, h, i, n)
    requires n.term in h.leaderLog && Follows(n.log, h.leaderLog[n.term], log')
    ensures KeptInv(h, i, n.(log := log'))
  {
    forall t | (i, t) in h.acks ensures AckKept(h, i, log', n.term, t) {
      assert AckKept(h, i, n.log, n.term, t);
      FollowAllKept(h, n.log, n.term, log', t, h.acks[(i, t)]);
    }
  }

  lemma FollowAllKept(h: History, log: Log, term: Term, log': Log, t: Term, top: nat)
    requires t in h.leaderLog && top <= |h.leaderLog[t]| && t <= term && AllKept(h, log, t, top, term + 1)
    requires term in h.leaderLog && Follows(log, h.leaderLog[term], log')
    ensures AllKept(h, log', t, top, term + 1)
  {
    var bound := term + 1;
    forall k | 0 <= k <= top ensures Kept(h, log', t, k, bound) {
      assert Kept(h, log, t, k, bound);
      var p := h.leaderLog[t][..k];
      if p <= log {
        assert log[..k] == p;
        if !(p <= h.leaderLog[term]) { assert Lacks(h, t, k, term); }
      }
    }
  }

  lemma AckedInv(ids: set<NodeId>, h: History, i: NodeId, n: Node, k: nat) returns (h': History)
    requires HistInv(ids, h) && NodeInv(ids, h, i, n) && n.role.Follower? && n.term in h.leaderLog
    requires k <= |h.leaderLog[n.term]| && h.leaderLog[n.term][..k] <= n.log
    ensures HistInv(ids, h') && ExtendsBy(h, h', i) && NodeInv(ids, h', i, n)
    ensures (i, n.term) in h'.acks && k <= h'.acks[(i, n.term)] && h'.leaderLog == h.leaderLog
  {
    AckKeepsHist(ids, h, i, n.term, k);
    h' := WithAck(h, i, n.term, k);
    AckedNode(ids, h, i, n, k);
  }

  lemma AckedNode(ids: set<NodeId>, h: History, i: NodeId, n: Node, k: nat)
    requires var h' := WithAck(h, i, n.term, k); Grows(h, h') && LeaderLogsGrown(h) && LeaderLogsGrown(h')
    requires NodeInv(ids, h, i, n) && n.role.Follower? && n.term in h.leaderLog
    requires k <= |h.leaderLog[n.term]| && h.leaderLog[n.term][..k] <= n.log
    ensures NodeInv(ids, WithAck(h, i, n.term, k), i, n)
  {
    var h' := WithAck(h, i, n.term, k);
    LogStable(h, h', n);
    CommitInvStable(h, h', n);
    AckedKept(h, i, n, k);
  }

  lemma AckedKept(h: History, i: NodeId, n: Node, k: nat)
    requires LeaderLogsGrown(h) && LeaderLogsGrown(WithAck(h, i, n.term, k)) && Grows(h, WithAck(h, i, n.term, k))
    requires KeptInv(h, i, n) && n.term in h.leaderLog
    requires k <= |h.leaderLog[n.term]| && h.leaderLog[n.term][..k] <= n.log
    ensures KeptInv(WithAck(h, i, n.term, k), i, n)
  {
    var t, h' := n.term, WithAck(h, i, n.term, k);
    forall s | (i, s) in h'.acks ensures AckKept(h', i, n.log, t, s) {
      if s != t || h' == h {
        assert AckKept(h, i, n.log, t, s);
        AckKeptStable(h, h', i, n.log, t, s);
      } else {
        PrefixKept(h', n.log, t, k, t + 1);
      }
    }
  }

  lemma PrefixKept(h: History, log: Log, t: Term, top: nat, bound: Term)
    requires t in h.leaderLog && top <= |h.leaderLog[t]| && h.leaderLog[t][..top] <= log
    ensures AllKept(h, log, t, top, bound)
  {
    forall k | 0 <= k <= top ensures Kept(h, log, t, k, bound) {
      assert h.leaderLog[t][..k] == h.leaderLog[t][..top][..k];
    }
  }

  lemma HandOffInv(ids: set<NodeId>, h: History, i: NodeId, n: Node, room: nat)
    requires NodeInv(ids, h, i, n)
    ensures NodeInv(ids, h, i, HandOff(n, room))
  {
    var n' := HandOff(n, room);
    assert n'.handed == n'.log[..n'.lastApplied];
    forall t | (i, t) in h.acks ensures AckKept(h, i, n'.log, n'.term, t) { assert AckKept(h, i, n.log, n.term, t); }
    forall p | p in n.matchIndex && n.role.Leader?
      ensures MatchInv(ids, h, i, n', p)
    {
      assert MatchInv(ids, h, i, n, p);
    }
  }

  lemma CommittedInv(ids: set<NodeId>, h: History, i: NodeId, n: Node, k: nat)
    requires NodeInv(ids, h, i, n) && n.commitIndex <= k <= |n.log| && CommittedBy(h, n.log[..k], n.term)
    requires n.role.Leader? && n.term in h.commits ==> h.commits[n.term].upto <= k
    ensures NodeInv(ids, h, i, n.(commitIndex := k))
  {
    var n' := n.(commitIndex := k);
    forall t | (i, t) in h.acks ensures AckKept(h, i, n'.log, n'.term, t) { assert AckKept(h, i, n.log, n.term, t); }
    forall p | p in n.matchIndex && n.role.Leader?
      ensures MatchInv(ids, h, i, n', p)
    {
      assert MatchInv(ids, h, i, n, p);
    }
  }

  lemma FollowerInv(ids: set<NodeId>, h: History, i: NodeId, n: Node, l: NodeId)
    requires NodeInv(ids, h, i, n) && !n.role.Leader?
    ensures NodeInv(ids, h, i, n.(leaderId := Some(l), role := Follower))
  {
    var n' := n.(leaderId := Some(l), role := Follower);
    forall t | (i, t) in h.acks ensures AckKept(h, i, n'.log, n'.term, t) { assert AckKept(h, i, n.log, n.term, t); }
  }

  lemma AppendEntriesInv(ids: set<NodeId>, c: Config, h: History, n: Node, from: NodeId, ae: Msg, room: nat)
    returns (h': History)
    requires Ready(ids, c, h, n) && ae.AppendEntries? && ae.term <= n.term
    requires PacketInv(ids, h, Packet(from, c.self, ae))
    ensures Justified(ids, h, h', c.self, OnAppendEntries(n, from, ae, room))
  {
    h' := h;
    ExtendsRefl(h, c.self);
    if ae.term == n.term && !n.role.Leader? {
      var f := n.(leaderId := Some(ae.leaderId), role := Follower);
      FollowerInv(ids, h, c.self, n, ae.leaderId);
      if ae.prevLogIndex <= |f.log| && TermAt(f.log, ae.prevLogIndex) == ae.prevLogTerm {
        h' := AcceptInv(ids, c, h, f, from, ae, room);
      }
    }
  }

  lemma AcceptInv(ids: set<NodeId>, c: Config, h: History, f: Node, from: NodeId, ae: Msg, room: nat)
    returns (h': History)
    requires Ready(ids, c, h, f) && ae.AppendEntries? && ae.term == f.term && f.role.Follower?
    requires PacketInv(ids, h, Packet(from, c.self, ae))
    requires ae.prevLogIndex <= |f.log| && TermAt(f.log, ae.prevLogIndex) == ae.prevLogTerm
    ensures Justified(ids, h, h', c.self, Accept(f, from, ae, room))
  {
    var confirmed := ae.prevLogIndex + |ae.entries|;
    var merged := f.(log := Merge(f.log, ae.prevLogIndex, ae.entries));
    h' := MergedInv(ids, c, h, f, from, ae);
    AcceptedInv(ids, h, h', c.self, merged, h.leaderLog[f.term], confirmed, ae.leaderCommit, room);
    AcceptSends(ids, h', c.self, f, from, ae);
  }

  /** After the merge: the commit index follows the leader's, within what the message vouches for. */
  lemma AcceptedInv(ids: set<NodeId>, h: History, h': History, i: NodeId, n: Node, l: Log, confirmed: nat, k: nat,
                    room: nat)
    requires Grows(h, h') && NodeInv(ids, h', i, n) && n.role.Follower?
    requires k <= confirmed <= |l| && l[..confirmed] <= n.log && CommittedBy(h, l[..k], n.term)
    ensures NodeInv(ids, h', i, if k > n.commitIndex then HandOff(n.(commitIndex := Min(k, confirmed)), room) else n)
  {
    if k > n.commitIndex {
      CommittedStable(h, h', l[..k], n.term, n.term);
      FollowerCommitInv(ids, h', i, n, l, confirmed, k, room);
    }
  }

  lemma AcceptSends(ids: set<NodeId>, h: History, i: NodeId, f: Node, from: NodeId, ae: Msg)
    requires ae.AppendEntries? && ae.prevLogIndex <= |f.log|
    requires i in ids && from in ids && i != from
    requires (i, f.term) in h.acks && ae.prevLogIndex + |ae.entries| <= h.acks[(i, f.term)]
    ensures SendsOk(ids, h, i, MergeEffects(f.log, ae.prevLogIndex, ae.entries)
                               + [Send(from, AppendEntriesReply(f.term, true, ae.prevLogIndex + |ae.entries|, 0))])
  {
    SendsConcat(ids, h, i, MergeEffects(f.log, ae.prevLogIndex, ae.entries),
                [Send(from, AppendEntriesReply(f.term, true, ae.prevLogIndex + |ae.entries|, 0))]);
  }

  /** The merged log follows the leader's log and holds all that the message vouches for. */
  lemma {:induction false} MergeGood(ids: set<NodeId>, h: History, f: Node, p: Packet)
    requires LeaderLogsGrown(h) && LogInv(h, f) && PacketInv(ids, h, p)
    requires p.msg.AppendEntries? && p.msg.term == f.term
    requires p.msg.prevLogIndex <= |f.log| && TermAt(f.log, p.msg.prevLogIndex) == p.msg.prevLogTerm
    ensures var l, ae := h.leaderLog[f.term], p.msg;
            && Diverges(f.log, ae.prevLogIndex + Present(f.log, ae.prevLogIndex, ae.entries),
                        ae.prevLogIndex + |ae.entries|, l)
            && Follows(f.log, l, Merge(f.log, ae.prevLogIndex, ae.entries))
            && l[..ae.prevLogIndex + |ae.entries|] <= Merge(f.log, ae.prevLogIndex, ae.entries)
  {
    assert LeaderLogGrown(h, f.term);
    MergeAgainst(h, f.log, p.msg.prevLogIndex, p.msg.entries, h.leaderLog[f.term]);
  }

  lemma {:induction false} MergeAgainst(h: History, log: Log, prev: nat, es: seq<Entry>, l: Log)
    requires Traced(h, log) && Traced(h, l)
    requires prev <= |log| && prev + |es| <= |l| && es == l[prev..prev + |es|]
    requires TermAt(log, prev) == TermAt(l, prev)
    ensures Diverges(log, prev + Present(log, prev, es), prev + |es|, l)
    ensures Follows(log, l, Merge(log, prev, es)) && l[..prev + |es|] <= Merge(log, prev, es)
  {
    MergePoint(h, log, prev, es, l);
    MergeHolds(log, prev, es, l);
  }

  lemma MergedInv(ids: set<NodeId>, c: Config, h: History, f: Node, from: NodeId, ae: Msg) returns (h': History)
    requires Ready(ids, c, h, f) && ae.AppendEntries? && ae.term == f.term && f.role.Follower?
    requires PacketInv(ids, h, Packet(from, c.self, ae))
    requires ae.prevLogIndex <= |f.log| && TermAt(f.log, ae.prevLogIndex) == ae.prevLogTerm
    ensures var merged := f.(log := Merge(f.log, ae.prevLogIndex, ae.entries));
            var confirmed := ae.prevLogIndex + |ae.entries|;
            && HistInv(ids, h') && ExtendsBy(h, h', c.self) && NodeInv(ids, h', c.self, merged)
            && h.leaderLog[f.term][..confirmed] <= merged.log
            && (c.self, f.term) in h'.acks && confirmed <= h'.acks[(c.self, f.term)]
  {
    MergeGood(ids, h, f, Packet(from, c.self, ae));
    var merged := f.(log := Merge(f.log, ae.prevLogIndex, ae.entries));
    FollowInv(ids, h, c.self, f, merged.log);
    h' := AckedInv(ids, h, c.self, merged, ae.prevLogIndex + |ae.entries|);
  }

  lemma FollowerCommitInv(ids: set<NodeId>, h: History, i: NodeId, n: Node, l: Log, confirmed: nat, k: nat, room: nat)
    requires NodeInv(ids, h, i, n) && n.role.Follower? && n.commitIndex <= k <= confirmed <= |l|
    requires l[..confirmed] <= n.log && CommittedBy(h, l[..k], n.term)
    ensures NodeInv(ids, h, i, HandOff(n.(commitIndex := k), room))
  {
    assert n.log[..k] == l[..confirmed][..k] == l[..k];
    CommittedInv(ids, h, i, n, k);
    HandOffInv(ids, h, i, n.(commitIndex := k), room);
  }

  // ---- leader side ---------------------------------------------------------------------

  lemma LeaderAppendInv(ids: set<NodeId>, c: Config, h: History, n: Node, es: seq<Entry>) returns (h': History)
    requires Ready(ids, c, h, n) && n.role.Leader? && forall e :: e in es ==> e.term == n.term
    ensures HistInv(ids, h') && ExtendsBy(h, h', c.self) && NodeInv(ids, h', c.self, n.(log := n.log + es))
  {
    AppendKeepsHist(ids, h, c.self, n.term, es);
    h' := WithAppend(h, c.self, n.term, n.log + es);
    LongerInv(ids, h, h', c.self, n, es);
  }

  lemma LongerInv(ids: set<NodeId>, h: History, h': History, i: NodeId, n: Node, es: seq<Entry>)
    requires HistInv(ids, h) && HistInv(ids, h') && NodeInv(ids, h, i, n) && n.role.Leader?
    requires h' == WithAppend(h, i, n.term, n.log + es) && Grows(h, h') && forall e :: e in es ==> e.term == n.term
    ensures NodeInv(ids, h', i, n.(log := n.log + es))
  {
    var n' := n.(log := n.log + es);
    assert LeaderLogGrown(h', n.term);
    LongerCommit(h, h', n, es);
    LongerKept(ids, h, h', i, n, es);
    LongerMatch(ids, h, h', i, n, es);
  }

  lemma LongerCommit(h: History, h': History, n: Node, es: seq<Entry>)
    requires CommitInv(h, n) && Grows(h, h')
    ensures CommitInv(h', n.(log := n.log + es))
  {
    var n' := n.(log := n.log + es);
    assert n'.log[..n.commitIndex] == n.log[..n.commitIndex];
    assert n'.log[..n.lastApplied] == n.log[..n.lastApplied];
    CommittedStable(h, h', n.log[..n.commitIndex], n.term, n.term);
  }

  lemma LongerMatch(ids: set<NodeId>, h: History, h': History, i: NodeId, n: Node, es: seq<Entry>)
    requires NodeInv(ids, h, i, n) && n.role.Leader?
    requires h' == WithAppend(h, i, n.term, n.log + es)
    ensures forall p {:trigger MatchInv(ids, h', i, n.(log := n.log + es), p)} :: p in n.matchIndex ==>
              MatchInv(ids, h', i, n.(log := n.log + es), p)
  {
    forall p | p in n.matchIndex ensures MatchInv(ids, h', i, n.(log := n.log + es), p) {
      assert MatchInv(ids, h, i, n, p);
    }
  }

  lemma LongerKept(ids: set<NodeId>, h: History, h': History, i: NodeId, n: Node, es: seq<Entry>)
    requires HistInv(ids, h) && HistInv(ids, h') && NodeInv(ids, h, i, n) && n.role.Leader?
    requires h' == WithAppend(h, i, n.term, n.log + es) && Grows(h, h')
    ensures KeptInv(h', i, n.(log := n.log + es))
  {
    var t, log' := n.term, n.log + es;
    forall s | (i, s) in h'.acks ensures AckKept(h', i, log', t, s) {
      if s == t {
        OwnPrefixKept(h', log', t, t + 1);
      } else {
        assert AckKept(h, i, n.log, t, s);
        AckKeptStable(h, h', i, n.log, t, s);
        LongerAllKept(h', n.log, log', s, h'.acks[(i, s)], t + 1);
      }
    }
  }

  lemma LongerAllKept(h: History, log: Log, log': Log, t: Term, top: nat, bound: Term)
    requires t in h.leaderLog && top <= |h.leaderLog[t]| && AllKept(h, log, t, top, bound) && log <= log'
    ensures AllKept(h, log', t, top, bound)
  {
    forall k | 0 <= k <= top ensures Kept(h, log', t, k, bound) { assert Kept(h, log, t, k, bound); }
  }

  lemma {:induction false} ScanFinds(c: Config, log: Log, cur: Term, m: map<NodeId, nat>, low: nat, i: nat)
    ensures var f := ScanCommit(c, log, cur, m, low, i);
            f == low || (low < f <= i && TermAt(log, f) == cur && Replicas(m, f) >= c.Majority())
  {
    if !(i <= low || TermAt(log, i) != cur) && Replicas(m, i) < c.Majority() {
      ScanFinds(c, log, cur, m, low, i - 1);
    }
  }

  lemma AdvanceInv(ids: set<NodeId>, c: Config, h: History, n: Node, room: nat) returns (h': History)
    requires Ready(ids, c, h, n) && n.role.Leader?
    ensures HistInv(ids, h') && ExtendsBy(h, h', c.self) && NodeInv(ids, h', c.self, AdvanceCommit(c, n, room))
    ensures AdvanceCommit(c, n, room).role.Leader?
  {
    var i, t := c.self, n.term;
    h' := h;
    ExtendsRefl(h, i);
    var k := ScanCommit(c, n.log, t, n.matchIndex, n.commitIndex, |n.log|);
    if k > n.commitIndex {
      ScanFinds(c, n.log, t, n.matchIndex, n.commitIndex, |n.log|);
      h' := LeaderCommitInv(ids, c, h, n, k);
      HandOffInv(ids, h', i, n.(commitIndex := k), room);
    }
  }

  lemma LeaderCommitInv(ids: set<NodeId>, c: Config, h: History, n: Node, k: nat) returns (h': History)
    requires Ready(ids, c, h, n) && n.role.Leader?
    requires n.commitIndex < k <= |n.log| && TermAt(n.log, k) == n.term && Replicas(n.matchIndex, k) >= c.Majority()
    ensures HistInv(ids, h') && ExtendsBy(h, h', c.self) && NodeInv(ids, h', c.self, n.(commitIndex := k))
  {
    var i, t := c.self, n.term;
    var q := AckedQuorum(ids, c, h, n, k);
    CommitKeepsHist(ids, h, t, k, q);
    h' := WithCommit(h, t, k, q);
    var n' := n.(commitIndex := k);
    LogStable(h, h', n);
    KeptInvStable(h, h', i, n);
    forall s | (i, s) in h'.acks ensures AckKept(h', i, n'.log, n'.term, s) { assert AckKept(h', i, n.log, n.term, s); }
    forall p | p in n'.matchIndex ensures MatchInv(ids, h', i, n', p) { assert MatchInv(ids, h, i, n, p); }
    assert CommittedIn(h', n.log[..k], t);
    CommittedStable(h, h', n.log[..n.commitIndex], t, t);
  }

  /** A majority of matchIndex values at k, with the leader itself, is a quorum that confirmed k. */
  lemma AckedQuorum(ids: set<NodeId>, c: Config, h: History, n: Node, k: nat) returns (q: set<NodeId>)
    requires Ready(ids, c, h, n) && n.role.Leader?
    requires 1 <= k <= |n.log| && Replicas(n.matchIndex, k) >= c.Majority()
    ensures Quorum(ids, q) && forall v :: v in q ==> (v, n.term) in h.acks && h.acks[(v, n.term)] >= k
  {
    var m := Holders(n.matchIndex, k);
    q := m + {c.self};
    forall v | v in m ensures v in ids && v != c.self && (v, n.term) in h.acks && h.acks[(v, n.term)] >= k {
      assert MatchInv(ids, h, c.self, n, v);
    }
    assert c.self !in m;
    assert |q| == |m| + 1 == Replicas(n.matchIndex, k);
    assert q <= ids;
  }

  lemma MatchedInv(ids: set<NodeId>, c: Config, h: History, n: Node, from: NodeId, ack: nat)
    requires Ready(ids, c, h, n) && n.role.Leader? && from in ids && from != c.self
    requires ack <= |n.log| && (from, n.term) in h.acks && ack <= h.acks[(from, n.term)]
    ensures NodeInv(ids, h, c.self, Acked(n, from, ack))
  {
    var n' := Acked(n, from, ack);
    forall t | (c.self, t) in h.acks ensures AckKept(h, c.self, n'.log, n'.term, t) {
      assert AckKept(h, c.self, n.log, n.term, t);
    }
    forall p | p in n'.matchIndex ensures MatchInv(ids, h, c.self, n', p) {
      if p != from { assert MatchInv(ids, h, c.self, n, p); }
    }
  }

  lemma MatchBound(ids: set<NodeId>, c: Config, h: History, n: Node, from: NodeId)
    requires Ready(ids, c, h, n) && n.role.Leader?
    ensures Get(n.matchIndex, from) <= |n.log|
  {
    if from in n.matchIndex {
      assert MatchInv(ids, h, c.self, n, from);
      if n.matchIndex[from] > 0 { assert AckSound(ids, h, from, n.term); }
    }
  }

  lemma BacktrackedInv(ids: set<NodeId>, c: Config, h: History, n: Node, from: NodeId, ni: nat)
    requires Ready(ids, c, h, n) && n.role.Leader?
    requires Get(n.matchIndex, from) < ni <= |n.log| + 1
    ensures NodeInv(ids, h, c.self, n.(nextIndex := n.nextIndex[from := ni]))
  {
    var n' := n.(nextIndex := n.nextIndex[from := ni]);
    forall t | (c.self, t) in h.acks ensures AckKept(h, c.self, n'.log, n'.term, t) {
      assert AckKept(h, c.self, n.log, n.term, t);
    }
    forall p | p in n'.matchIndex ensures MatchInv(ids, h, c.self, n', p) { assert MatchInv(ids, h, c.self, n, p); }
  }

  lemma AppendReplyInv(ids: set<NodeId>, c: Config, h: History, n: Node, from: NodeId, r: Msg, room: nat)
    returns (h': History)
    requires Ready(ids, c, h, n) && r.AppendEntriesReply?
    requires PacketInv(ids, h, Packet(from, c.self, r))
    ensures Justified(ids, h, h', c.self, OnAppendEntriesReply(c, n, from, r, room))
  {
    h' := h;
    ExtendsRefl(h, c.self);
    if n.role.Leader? && r.term == n.term {
      if !r.success {
        RejectedInv(ids, c, h, n, from, r, room);
      } else if r.conflictIndex <= |n.log| && r.conflictIndex > Get(n.matchIndex, from) {
        h' := AckCountedInv(ids, c, h, n, from, r, room);
      }
    }
  }

  lemma AckCountedInv(ids: set<NodeId>, c: Config, h: History, n: Node, from: NodeId, r: Msg, room: nat)
    returns (h': History)
    requires Ready(ids, c, h, n) && r.AppendEntriesReply? && n.role.Leader? && r.term == n.term && r.success
    requires Get(n.matchIndex, from) < r.conflictIndex <= |n.log| && from in ids && from != c.self
    requires (from, n.term) in h.acks && r.conflictIndex <= h.acks[(from, n.term)]
    ensures Justified(ids, h, h', c.self, OnAppendEntriesReply(c, n, from, r, room))
  {
    MatchedInv(ids, c, h, n, from, r.conflictIndex);
    h' := AfterAckInv(ids, c, h, Acked(n, from, r.conflictIndex), from, r.conflictIndex, room);
  }

  lemma AfterAckInv(ids: set<NodeId>, c: Config, h: History, m: Node, peer: NodeId, ack: nat, room: nat)
    returns (h': History)
    requires Ready(ids, c, h, m) && m.role.Leader? && peer in ids && peer != c.self
    ensures Justified(ids, h, h', c.self, AfterAck(c, m, peer, ack, room))
  {
    h' := AdvanceInv(ids, c, h, m, room);
    AppendForOk(ids, c, h', AdvanceCommit(c, m, room), peer);
  }

  lemma RejectedInv(ids: set<NodeId>, c: Config, h: History, n: Node, from: NodeId, r: Msg, room: nat)
    requires Ready(ids, c, h, n) && r.AppendEntriesReply? && n.role.Leader? && r.term == n.term && !r.success
    requires from in ids && from != c.self
    ensures NodeInv(ids, h, c.self, OnAppendEntriesReply(c, n, from, r, room).node)
    ensures SendsOk(ids, h, c.self, OnAppendEntriesReply(c, n, from, r, room).effects)
  {
    var ni := Backtracked(n, from, r);
    MatchBound(ids, c, h, n, from);
    assert from in n.nextIndex;
    BacktrackedInv(ids, c, h, n, from, ni);
    AppendForOk(ids, c, h, n.(nextIndex := n.nextIndex[from := ni]), from);
  }

  lemma ProposeInv(ids: set<NodeId>, c: Config, h: History, n: Node, commands: seq<Command>, room: nat)
    returns (h': History)
    requires Ready(ids, c, h, n)
    ensures Justified(ids, h, h', c.self, Propose(c, n, commands, room))
  {
    if commands != [] && n.role.Leader? {
      var es := Stamped(n.term, commands);
      var h1 := LeaderAppendInv(ids, c, h, n, es);
      h' := AdvanceAndSendAll(ids, c, h1, n.(log := n.log + es), es, room);
      ExtendsTrans(h, h1, h', c.self);
    } else {
      h' := h;
      ExtendsRefl(h, c.self);
    }
  }

  lemma AdvanceAndSendAll(ids: set<NodeId>, c: Config, h: History, n: Node, es: seq<Entry>, room: nat)
    returns (h': History)
    requires Ready(ids, c, h, n) && n.role.Leader?
    ensures var a := AdvanceCommit(c, n, room);
            Justified(ids, h, h', c.self, Outcome(a, [AppendLog(es)] + AppendToAll(c, a, c.peers)))
  {
    h' := AdvanceInv(ids, c, h, n, room);
    var a := AdvanceCommit(c, n, room);
    AppendToAllOk(ids, c, h', a);
    SendsConcat(ids, h', c.self, [AppendLog(es)], AppendToAll(c, a, c.peers));
  }

  // ---- any event -------------------------------------------------------------------------

  ghost predicate Delivered(ids: set<NodeId>, h: History, c: Config, e: Event) {
    e.Receive? ==> PacketInv(ids, h, Packet(e.from, c.self, e.msg))
  }

  lemma HandleInv(ids: set<NodeId>, c: Config, h: History, n: Node, from: NodeId, m: Msg, room: nat)
    returns (h': History)
    requires Ready(ids, c, h, n) && PacketInv(ids, h, Packet(from, c.self, m))
    ensures Justified(ids, h, h', c.self, Handle(c, n, from, m, room))
  {
    var a := Adopt(n, m.term);
    AdoptInv(ids, h, c.self, n, m.term);
    h' := OnMessageInv(ids, c, h, a.node, from, m, room);
    JustifiedAfter(ids, h, h', c.self, a.effects, OnMessage(c, a.node, from, m, room));
  }

  lemma JustifiedAfter(ids: set<NodeId>, h: History, h': History, i: NodeId, es: seq<Effect>, o: Outcome)
    requires Justified(ids, h, h', i, o) && forall k :: 0 <= k < |es| ==> !es[k].Send?
    ensures Justified(ids, h, h', i, Outcome(o.node, es + o.effects))
  {
    SendsConcat(ids, h', i, es, o.effects);
  }

  lemma OnMessageInv(ids: set<NodeId>, c: Config, h: History, n: Node, from: NodeId, m: Msg, room: nat)
    returns (h': History)
    requires Ready(ids, c, h, n) && PacketInv(ids, h, Packet(from, c.self, m)) && m.term <= n.term
    ensures Justified(ids, h, h', c.self, OnMessage(c, n, from, m, room))
  {
    match m {
      case RequestVote(_, _, _, _) => h' := VoteInv(ids, c, h, n, from, m);
      case RequestVoteReply(_, _) => h' := VoteReplyInv(ids, c, h, n, from, m);
      case AppendEntries(_, _, _, _, _, _) => h' := AppendEntriesInv(ids, c, h, n, from, m, room);
      case AppendEntriesReply(_, _, _, _) => h' := AppendReplyInv(ids, c, h, n, from, m, room);
    }
  }

  lemma StepInv(ids: set<NodeId>, c: Config, h: History, n: Node, e: Event, room: nat) returns (h': History)
    requires Ready(ids, c, h, n) && Delivered(ids, h, c, e)
    ensures Justified(ids, h, h', c.self, Step(c, n, e, room))
  {
    h' := h;
    ExtendsRefl(h, c.self);
    match e {
      case TimerFires =>
        if n.role.Leader? { AppendToAllOk(ids, c, h, n); } else { h' := StartElectionInv(ids, c, h, n); }
      case Receive(from, msg) => h' := HandleInv(ids, c, h, n, from, msg, room);
      case ClientProposes(commands) => h' := ProposeInv(ids, c, h, n, commands, room);
      case PumpApply => HandOffInv(ids, h, c.self, n, room);
    }
  }
}
