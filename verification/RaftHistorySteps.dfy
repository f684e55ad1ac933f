/** How a history grows, what growth preserves, and the five ways a node extends it: a vote, an
    election win, a leader's append, an acknowledgement and a commit. */
module RaftHistorySteps {
  import opened RaftTypes
  import opened RaftStep
  import opened RaftHistory

  ghost predicate BallotsGrow(h: History, h': History) {
    forall k :: k in h.ballots ==> k in h'.ballots && h'.ballots[k] == h.ballots[k]
  }

  ghost predicate WinsGrow(h: History, h': History) {
    forall t :: t in h.won ==> t in h'.won && h'.won[t] == h.won[t]
  }

  ghost predicate LogsGrow(h: History, h': History) {
    forall t :: t in h.leaderLog ==> t in h'.leaderLog && h.leaderLog[t] <= h'.leaderLog[t]
  }

  ghost predicate AcksGrow(h: History, h': History) {
    forall k :: k in h.acks ==> k in h'.acks && h.acks[k] <= h'.acks[k]
  }

  ghost predicate CommitsGrow(h: History, h': History) {
    forall t :: t in h.commits ==> t in h'.commits && h.commits[t].upto <= h'.commits[t].upto
  }

  /** h' knows everything h does. */
  ghost predicate Grows(h: History, h': History) {
    BallotsGrow(h, h') && WinsGrow(h, h') && LogsGrow(h, h') && AcksGrow(h, h') && CommitsGrow(h, h')
  }

  /** ... and what is new in h' is node i's doing. */
  ghost predicate ExtendsBy(h: History, h': History, i: NodeId) {
    && Grows(h, h')
    && (forall k :: k in h'.ballots && k !in h.ballots ==> k.0 == i)
    && (forall t :: t in h'.won && t !in h.won ==> h'.won[t].leader == i)
    && (forall t :: t in h.leaderLog && t in h'.leaderLog && h'.leaderLog[t] != h.leaderLog[t] ==>
          t in h.won && h.won[t].leader == i)
    && (forall k :: k in h'.acks && (k !in h.acks || h'.acks[k] != h.acks[k]) ==> k.0 == i)
    && (forall t :: t in h'.commits && (t !in h.commits || h'.commits[t].upto != h.commits[t].upto) ==>
          t in h'.won && h'.won[t].leader == i)
  }

  lemma ExtendsRefl(h: History, i: NodeId)
    ensures ExtendsBy(h, h, i)
  {}

  lemma ExtendsTrans(h: History, h1: History, h2: History, i: NodeId)
    requires ExtendsBy(h, h1, i) && ExtendsBy(h1, h2, i)
    requires h1.won.Keys == h1.leaderLog.Keys && h.won.Keys == h.leaderLog.Keys
    ensures ExtendsBy(h, h2, i)
  {
    forall t | t in h.leaderLog && t in h2.leaderLog && h2.leaderLog[t] != h.leaderLog[t]
      ensures t in h.won && h.won[t].leader == i
    {
      assert t in h1.leaderLog && (h1.leaderLog[t] != h.leaderLog[t] || h2.leaderLog[t] != h1.leaderLog[t]);
      assert t in h.won;
    }
  }

  lemma GrowsTrans(h: History, h1: History, h2: History)
    requires Grows(h, h1) && Grows(h1, h2)
    ensures Grows(h, h2)
  {}

  // ---- what growth preserves -----------------------------------------------------

  lemma TracedStable(h: History, h': History, log: Log)
    requires LogsGrow(h, h') && Traced(h, log)
    ensures Traced(h', log)
  {
    forall i | 0 <= i < |log| ensures TracedAt(h', log, i) {
      assert TracedAt(h, log, i);
      assert h.leaderLog[log[i].term] <= h'.leaderLog[log[i].term];
    }
  }

  /** A leader that lacks an older leader's prefix never gets it: it only adds entries of its
      own, later term. */
  lemma LacksStable(h: History, h': History, t: Term, k: nat, u: Term)
    requires LogsGrow(h, h') && BallotsGrow(h, h') && WinsGrow(h, h')
    requires LeaderLogsGrown(h) && LeaderLogsGrown(h')
    requires t in h.leaderLog && k <= |h.leaderLog[t]| && Lacks(h, t, k, u) && t < u
    ensures k <= |h'.leaderLog[t]| && Lacks(h', t, k, u)
  {
    var p, l, l' := h.leaderLog[t][..k], h.leaderLog[u], h'.leaderLog[u];
    assert h'.leaderLog[t][..k] == p;
    assert LeaderLogGrown(h, t) && LeaderLogGrown(h, u) && LeaderLogGrown(h', u);
    if |p| <= |l| {
      assert l[..|p|] == l'[..|p|];
    } else if |p| <= |l'| {
      assert p[|l|].term <= t < u == l'[|l|].term;
    }
  }

  lemma KeptStable(h: History, h': History, log: Log, t: Term, k: nat, bound: Term)
    requires LogsGrow(h, h') && BallotsGrow(h, h') && WinsGrow(h, h')
    requires LeaderLogsGrown(h) && LeaderLogsGrown(h')
    requires t in h.leaderLog && k <= |h.leaderLog[t]| && Kept(h, log, t, k, bound)
    ensures k <= |h'.leaderLog[t]| && Kept(h', log, t, k, bound)
  {
    assert h'.leaderLog[t][..k] == h.leaderLog[t][..k];
    if !(h.leaderLog[t][..k] <= log) {
      var u: Term :| Lacks(h, t, k, u) && t < u < bound;
      LacksStable(h, h', t, k, u);
    }
  }

  lemma AllKeptStable(h: History, h': History, log: Log, t: Term, top: nat, bound: Term)
    requires LogsGrow(h, h') && BallotsGrow(h, h') && WinsGrow(h, h')
    requires LeaderLogsGrown(h) && LeaderLogsGrown(h')
    requires t in h.leaderLog && top <= |h.leaderLog[t]| && AllKept(h, log, t, top, bound)
    ensures top <= |h'.leaderLog[t]| && AllKept(h', log, t, top, bound)
  {
    forall k | 0 <= k <= top ensures Kept(h', log, t, k, bound) {
      KeptStable(h, h', log, t, k, bound);
    }
  }

  /** p was committed by a leader of a term up to u. */
  ghost predicate CommittedBy(h: History, p: Log, u: Term) {
    p == [] || exists t: Term :: CommittedIn(h, p, t) && t <= u
  }

  ghost predicate CommittedIn(h: History, p: Log, t: Term) {
    t in h.commits && t in h.leaderLog && |p| <= h.commits[t].upto && p <= h.leaderLog[t]
  }

  lemma CommittedStable(h: History, h': History, p: Log, u: Term, u': Term)
    requires LogsGrow(h, h') && CommitsGrow(h, h') && u <= u'
    requires CommittedBy(h, p, u)
    ensures CommittedBy(h', p, u')
  {
    if p != [] {
      var t: Term :| CommittedIn(h, p, t) && t <= u;
      assert p <= h.leaderLog[t] <= h'.leaderLog[t];
      assert CommittedIn(h', p, t);
    }
  }

  /** A later leader's log starts with everything committed before. */
  lemma LeaderHasCommitted(ids: set<NodeId>, h: History, p: Log, u: Term)
    requires HistInv(ids, h) && u in h.won && CommittedBy(h, p, u)
    ensures u in h.leaderLog && p <= h.leaderLog[u]
  {
    if p != [] {
      var t: Term :| CommittedIn(h, p, t) && t <= u;
      if t < u {
        LeaderComplete(ids, h, t, u);
        assert p <= h.leaderLog[t][..h.commits[t].upto];
      }
    }
  }

  /** Any two committed prefixes, of whatever terms, are comparable. */
  lemma CommittedComparable(ids: set<NodeId>, h: History, p: Log, u: Term, q: Log, w: Term)
    requires HistInv(ids, h) && CommittedBy(h, p, u) && CommittedBy(h, q, w)
    ensures p <= q || q <= p
  {
    if p != [] && q != [] {
      var t: Term :| CommittedIn(h, p, t) && t <= u;
      var s: Term :| CommittedIn(h, q, s) && s <= w;
      var m := if t <= s then s else t;
      assert CommittedBy(h, p, m) && CommittedBy(h, q, m);
      LeaderHasCommitted(ids, h, p, m);
      LeaderHasCommitted(ids, h, q, m);
      var l := h.leaderLog[m];
      assert p == l[..|p|] && q == l[..|q|];
    }
  }

  lemma WinsStable(ids: set<NodeId>, h: History, h': History)
    requires WinsBacked(ids, h) && BallotsGrow(h, h')
    requires h'.won == h.won && h'.leaderLog.Keys == h.leaderLog.Keys
    ensures WinsBacked(ids, h')
  {
    forall t | t in h'.won ensures WinBacked(ids, h', t) { assert WinBacked(ids, h, t); }
  }

  lemma LeaderLogsStable(h: History, h': History)
    requires LeaderLogsGrown(h) && BallotsGrow(h, h')
    requires h'.won == h.won && h'.leaderLog == h.leaderLog
    ensures LeaderLogsGrown(h')
  {
    forall t | t in h'.leaderLog ensures LeaderLogGrown(h', t) {
      assert LeaderLogGrown(h, t);
      TracedStable(h, h', h.leaderLog[t]);
    }
  }

  lemma BallotsStable(ids: set<NodeId>, h: History, h': History)
    requires BallotsSound(ids, h) && LogsGrow(h, h') && h'.ballots == h.ballots
    ensures BallotsSound(ids, h')
  {
    forall v, t | (v, t) in h'.ballots ensures BallotSound(ids, h', v, t) {
      assert BallotSound(ids, h, v, t);
      TracedStable(h, h', h.ballots[(v, t)].log);
    }
  }

  lemma AcksStable(ids: set<NodeId>, h: History, h': History, i: NodeId, t: Term)
    requires AcksSound(ids, h) && LogsGrow(h, h')
    requires forall k :: k in h'.acks && k != (i, t) ==> k in h.acks && h'.acks[k] == h.acks[k]
    requires (i, t) in h'.acks ==> AckSound(ids, h', i, t)
    ensures AcksSound(ids, h')
  {
    forall v, s | (v, s) in h'.acks ensures AckSound(ids, h', v, s) {
      if (v, s) != (i, t) { assert AckSound(ids, h, v, s); }
    }
  }

  lemma CommitsStable(ids: set<NodeId>, h: History, h': History)
    requires CommitsBacked(ids, h) && LogsGrow(h, h') && AcksGrow(h, h') && h'.commits == h.commits
    ensures CommitsBacked(ids, h')
  {
    forall t | t in h'.commits ensures CommitBacked(ids, h', t) { assert CommitBacked(ids, h, t); }
  }

  // ---- the five extensions ---------------------------------------------------------

  function WithBallot(h: History, i: NodeId, t: Term, b: Ballot): History {
    h.(ballots := h.ballots[(i, t) := b])
  }

  lemma BallotKeepsHist(ids: set<NodeId>, h: History, i: NodeId, t: Term, b: Ballot)
    requires HistInv(ids, h)
    requires (i, t) !in h.ballots && i in ids && Traced(h, b.log) && t >= 1
    requires b.cand == i ==> TermsAtMost(b.log, t - 1)
    requires b.cand != i ==>
               && (b.cand, t) in h.ballots && h.ballots[(b.cand, t)].cand == b.cand
               && AtLeastAsUpToDate(LastTerm(h.ballots[(b.cand, t)].log), |h.ballots[(b.cand, t)].log|,
                                    LastTerm(b.log), |b.log|)
    requires forall s :: (i, s) in h.acks && s < t ==>
               AckSound(ids, h, i, s) && AllKept(h, b.log, s, h.acks[(i, s)], t + 1)
    ensures HistInv(ids, WithBallot(h, i, t, b))
    ensures ExtendsBy(h, WithBallot(h, i, t, b), i)
  {
    var h' := WithBallot(h, i, t, b);
    WinsStable(ids, h, h');
    LeaderLogsStable(h, h');
    NewBallotSound(ids, h, i, t, b);
    forall v, s | (v, s) in h'.acks ensures AckSound(ids, h', v, s) { assert AckSound(ids, h, v, s); }
    CommitsStable(ids, h, h');
    BallotKeepsVoters(ids, h, i, t, b);
  }

  lemma NewBallotSound(ids: set<NodeId>, h: History, i: NodeId, t: Term, b: Ballot)
    requires BallotsSound(ids, h)
    requires (i, t) !in h.ballots && i in ids && Traced(h, b.log) && t >= 1
    requires b.cand == i ==> TermsAtMost(b.log, t - 1)
    requires b.cand != i ==>
               && (b.cand, t) in h.ballots && h.ballots[(b.cand, t)].cand == b.cand
               && AtLeastAsUpToDate(LastTerm(h.ballots[(b.cand, t)].log), |h.ballots[(b.cand, t)].log|,
                                    LastTerm(b.log), |b.log|)
    ensures BallotsSound(ids, WithBallot(h, i, t, b))
  {
    var h' := WithBallot(h, i, t, b);
    forall v, s | (v, s) in h'.ballots ensures BallotSound(ids, h', v, s) {
      if (v, s) != (i, t) { assert BallotSound(ids, h, v, s); }
      else if b.cand != i { assert BallotSound(ids, h, b.cand, t); }
      TracedStable(h, h', h'.ballots[(v, s)].log);
    }
  }

  lemma BallotKeepsVoters(ids: set<NodeId>, h: History, i: NodeId, t: Term, b: Ballot)
    requires HistInv(ids, h) && (i, t) !in h.ballots
    requires forall s :: (i, s) in h.acks && s < t ==>
               AckSound(ids, h, i, s) && AllKept(h, b.log, s, h.acks[(i, s)], t + 1)
    requires LeaderLogsGrown(WithBallot(h, i, t, b))
    ensures VotersKept(WithBallot(h, i, t, b))
  {
    var h' := WithBallot(h, i, t, b);
    forall v, s, s' | (v, s) in h'.acks && (v, s') in h'.ballots && s < s' ensures VoterKept(h', v, s, s') {
      assert AckSound(ids, h, v, s);
      if (v, s') != (i, t) { assert VoterKept(h, v, s, s'); }
      AllKeptStable(h, h', h'.ballots[(v, s')].log, s, h.acks[(v, s)], s' + 1);
    }
    forall v, s, s' | (v, s) in h'.acks && s' in h'.won && v in h'.won[s'].voters && s < s'
      ensures WinnerKept(h', v, s, s')
    {
      assert WinnerKept(h, v, s, s');
      AllKeptStable(h, h', h'.ballots[(v, s')].log, s, h.acks[(v, s)], s');
    }
  }

  function WithWin(h: History, i: NodeId, t: Term, voters: set<NodeId>, log: Log): History {
    h.(won := h.won[t := Win(i, voters)], leaderLog := h.leaderLog[t := log], acks := h.acks[(i, t) := |log|])
  }

  ghost predicate MayWin(ids: set<NodeId>, h: History, i: NodeId, t: Term, voters: set<NodeId>, log: Log) {
    && HistInv(ids, h) && i in ids && t !in h.won
    && Quorum(ids, voters)
    && (i, t) in h.ballots && h.ballots[(i, t)] == Ballot(i, log)
    && (forall v :: v in voters ==> (v, t) in h.ballots && h.ballots[(v, t)].cand == i)
    && (forall s :: (i, s) in h.ballots ==> s <= t)
    && (i, t) !in h.acks
  }

  /** Election Safety: a term that has a winner has no second one. */
  lemma NoSecondWinner(ids: set<NodeId>, h: History, i: NodeId, t: Term, voters: set<NodeId>)
    requires HistInv(ids, h) && Quorum(ids, voters) && t in h.won
    requires forall v :: v in voters ==> (v, t) in h.ballots && h.ballots[(v, t)].cand == i
    ensures h.won[t].leader == i
  {
    assert WinBacked(ids, h, t);
    var v := QuorumsMeet(ids, voters, h.won[t].voters);
  }

  lemma WinKeepsHist(ids: set<NodeId>, h: History, i: NodeId, t: Term, voters: set<NodeId>, log: Log)
    requires MayWin(ids, h, i, t, voters, log)
    ensures HistInv(ids, WithWin(h, i, t, voters, log))
    ensures ExtendsBy(h, WithWin(h, i, t, voters, log), i)
  {
    var h' := WithWin(h, i, t, voters, log);
    assert t !in h.leaderLog;
    WinKeepsWins(ids, h, i, t, voters, log);
    WinKeepsLogs(ids, h, i, t, voters, log);
    BallotsStable(ids, h, h');
    AcksStable(ids, h, h', i, t);
    CommitsStable(ids, h, h');
    WinKeepsVoters(ids, h, i, t, voters, log);
  }

  lemma WinKeepsWins(ids: set<NodeId>, h: History, i: NodeId, t: Term, voters: set<NodeId>, log: Log)
    requires MayWin(ids, h, i, t, voters, log)
    ensures WinsBacked(ids, WithWin(h, i, t, voters, log))
  {
    var h' := WithWin(h, i, t, voters, log);
    forall s | s in h'.won ensures WinBacked(ids, h', s) {
      if s != t { assert WinBacked(ids, h, s); }
    }
  }

  lemma WinKeepsLogs(ids: set<NodeId>, h: History, i: NodeId, t: Term, voters: set<NodeId>, log: Log)
    requires MayWin(ids, h, i, t, voters, log)
    ensures LeaderLogsGrown(WithWin(h, i, t, voters, log))
  {
    var h' := WithWin(h, i, t, voters, log);
    assert BallotSound(ids, h, i, t);
    assert t !in h.leaderLog;
    forall s | s in h'.leaderLog ensures LeaderLogGrown(h', s) {
      TracedStable(h, h', h'.leaderLog[s]) by {
        if s != t { assert LeaderLogGrown(h, s); }
      }
      if s != t {
        assert LeaderLogGrown(h, s);
      } else {
        TracedIsSorted(h, log);
      }
    }
  }

  lemma WinKeepsVoters(ids: set<NodeId>, h: History, i: NodeId, t: Term, voters: set<NodeId>, log: Log)
    requires MayWin(ids, h, i, t, voters, log)
    requires LeaderLogsGrown(WithWin(h, i, t, voters, log))
    ensures VotersKept(WithWin(h, i, t, voters, log))
  {
    var h' := WithWin(h, i, t, voters, log);
    assert t !in h.leaderLog;
    forall v, s, s' | (v, s) in h'.acks && (v, s') in h'.ballots && s < s' ensures VoterKept(h', v, s, s') {
      assert (v, s) != (i, t);
      assert VoterKept(h, v, s, s');
      AllKeptStable(h, h', h.ballots[(v, s')].log, s, h.acks[(v, s)], s' + 1);
    }
    forall v, s, s' | (v, s) in h'.acks && s' in h'.won && v in h'.won[s'].voters && s < s'
      ensures WinnerKept(h', v, s, s')
    {
      assert (v, s) != (i, t) by { if s' != t { assert WinBacked(ids, h, s'); } }
      if s' != t {
        assert WinnerKept(h, v, s, s');
      } else {
        assert VoterKept(h, v, s, t);
        KeptBeforeWin(h, h.ballots[(v, t)].log, s, h.acks[(v, s)], t);
      }
      AllKeptStable(h, h', h.ballots[(v, s')].log, s, h.acks[(v, s)], s');
    }
  }

  /** Before term t has a leader, the leader that lacked a prefix is older than t. */
  lemma KeptBeforeWin(h: History, log: Log, s: Term, top: nat, t: Term)
    requires s in h.leaderLog && top <= |h.leaderLog[s]| && t !in h.leaderLog
    requires AllKept(h, log, s, top, t + 1)
    ensures AllKept(h, log, s, top, t)
  {
    forall k | 0 <= k <= top ensures Kept(h, log, s, k, t) {
      assert Kept(h, log, s, k, t + 1);
    }
  }

  function WithAppend(h: History, i: NodeId, t: Term, log: Log): History {
    h.(leaderLog := h.leaderLog[t := log], acks := h.acks[(i, t) := |log|])
  }

  ghost predicate MayAppend(ids: set<NodeId>, h: History, i: NodeId, t: Term, es: seq<Entry>) {
    && HistInv(ids, h) && i in ids
    && t in h.won && t in h.leaderLog && h.won[t].leader == i
    && (forall e :: e in es ==> e.term == t)
    && (forall s :: (i, s) in h.ballots ==> s <= t)
    && (i, t) in h.acks && h.acks[(i, t)] <= |h.leaderLog[t]|
  }

  lemma AppendKeepsHist(ids: set<NodeId>, h: History, i: NodeId, t: Term, es: seq<Entry>)
    requires MayAppend(ids, h, i, t, es)
    ensures HistInv(ids, WithAppend(h, i, t, h.leaderLog[t] + es))
    ensures ExtendsBy(h, WithAppend(h, i, t, h.leaderLog[t] + es), i)
  {
    var h' := WithAppend(h, i, t, h.leaderLog[t] + es);
    assert ExtendsBy(h, h', i);
    WinsStable(ids, h, h');
    AppendKeepsLogs(ids, h, i, t, es);
    BallotsStable(ids, h, h');
    AcksStable(ids, h, h', i, t);
    CommitsStable(ids, h, h');
    GrowthKeepsVoters(ids, h, h', i, t);
  }

  lemma AppendKeepsLogs(ids: set<NodeId>, h: History, i: NodeId, t: Term, es: seq<Entry>)
    requires MayAppend(ids, h, i, t, es)
    ensures LeaderLogsGrown(WithAppend(h, i, t, h.leaderLog[t] + es))
  {
    var h' := WithAppend(h, i, t, h.leaderLog[t] + es);
    forall s | s in h'.leaderLog ensures LeaderLogGrown(h', s) {
      assert LeaderLogGrown(h, s);
      TracedStable(h, h', h.leaderLog[s]);
      if s == t {
        var l, l' := h.leaderLog[t], h'.leaderLog[t];
        forall k | 0 <= k < |l'| ensures TracedAt(h', l', k) {
          if k < |l| { assert TracedAt(h', l, k) && l'[..k + 1] == l[..k + 1]; }
        }
      }
    }
  }

  /** Acknowledgements of node i in term t may grow while i has voted in no later term. */
  lemma GrowthKeepsVoters(ids: set<NodeId>, h: History, h': History, i: NodeId, t: Term)
    requires HistInv(ids, h) && ExtendsBy(h, h', i)
    requires LeaderLogsGrown(h') && AcksSound(ids, h')
    requires h'.ballots == h.ballots && h'.won == h.won
    requires forall k :: k in h'.acks && k != (i, t) ==> k in h.acks && h'.acks[k] == h.acks[k]
    requires forall s :: (i, s) in h.ballots ==> s <= t
    ensures VotersKept(h')
  {
    forall v, s, s' | (v, s) in h'.acks && (v, s') in h'.ballots && s < s' ensures VoterKept(h', v, s, s') {
      assert (v, s) != (i, t);
      assert VoterKept(h, v, s, s');
      AllKeptStable(h, h', h.ballots[(v, s')].log, s, h.acks[(v, s)], s' + 1);
    }
    forall v, s, s' | (v, s) in h'.acks && s' in h'.won && v in h'.won[s'].voters && s < s'
      ensures WinnerKept(h', v, s, s')
    {
      assert WinBacked(ids, h, s');
      assert (v, s) != (i, t);
      assert WinnerKept(h, v, s, s');
      AllKeptStable(h, h', h.ballots[(v, s')].log, s, h.acks[(v, s)], s');
    }
  }

  function WithAck(h: History, i: NodeId, t: Term, k: nat): History {
    if (i, t) in h.acks && h.acks[(i, t)] >= k then h else h.(acks := h.acks[(i, t) := k])
  }

  lemma AckKeepsHist(ids: set<NodeId>, h: History, i: NodeId, t: Term, k: nat)
    requires HistInv(ids, h) && i in ids && t in h.leaderLog && k <= |h.leaderLog[t]|
    requires forall s :: (i, s) in h.ballots ==> s <= t
    ensures HistInv(ids, WithAck(h, i, t, k))
    ensures ExtendsBy(h, WithAck(h, i, t, k), i)
  {
    var h' := WithAck(h, i, t, k);
    if h' != h {
      WinsStable(ids, h, h');
      LeaderLogsStable(h, h');
      BallotsStable(ids, h, h');
      AcksStable(ids, h, h', i, t);
      CommitsStable(ids, h, h');
      GrowthKeepsVoters(ids, h, h', i, t);
    }
  }

  function WithCommit(h: History, t: Term, k: nat, quorum: set<NodeId>): History {
    h.(commits := h.commits[t := Commit(k, quorum)])
  }

  lemma CommitKeepsHist(ids: set<NodeId>, h: History, t: Term, k: nat, quorum: set<NodeId>)
    requires HistInv(ids, h) && t in h.won && t in h.leaderLog
    requires 1 <= k <= |h.leaderLog[t]| && h.leaderLog[t][k - 1].term == t
    requires Quorum(ids, quorum) && (forall v :: v in quorum ==> (v, t) in h.acks && h.acks[(v, t)] >= k)
    requires t in h.commits ==> h.commits[t].upto <= k
    ensures HistInv(ids, WithCommit(h, t, k, quorum))
    ensures ExtendsBy(h, WithCommit(h, t, k, quorum), h.won[t].leader)
  {
    var h' := WithCommit(h, t, k, quorum);
    WinsStable(ids, h, h');
    LeaderLogsStable(h, h');
    BallotsStable(ids, h, h');
    forall v, s | (v, s) in h'.acks ensures AckSound(ids, h', v, s) { assert AckSound(ids, h, v, s); }
    forall s | s in h'.commits ensures CommitBacked(ids, h', s) {
      if s != t { assert CommitBacked(ids, h, s); }
    }
    SameVotersKept(ids, h, h');
  }

  lemma SameVotersKept(ids: set<NodeId>, h: History, h': History)
    requires HistInv(ids, h) && LeaderLogsGrown(h')
    requires h'.ballots == h.ballots && h'.won == h.won && h'.acks == h.acks && h'.leaderLog == h.leaderLog
    ensures VotersKept(h')
  {
    forall v, s, s' | (v, s) in h'.acks && (v, s') in h'.ballots && s < s' ensures VoterKept(h', v, s, s') {
      assert VoterKept(h, v, s, s');
      AllKeptStable(h, h', h.ballots[(v, s')].log, s, h.acks[(v, s)], s' + 1);
    }
    forall v, s, s' | (v, s) in h'.acks && s' in h'.won && v in h'.won[s'].voters && s < s'
      ensures WinnerKept(h', v, s, s')
    {
      assert WinnerKept(h, v, s, s');
      AllKeptStable(h, h', h.ballots[(v, s')].log, s, h.acks[(v, s)], s');
    }
  }
}
