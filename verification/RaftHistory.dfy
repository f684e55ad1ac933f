/** What a run of the cluster has established so far: every vote with the voter's log at that
    moment, every election win, the log of each term's leader, every acknowledged prefix and
    every commit.  Leader Completeness is a property of this history alone. */
module RaftHistory {
  import opened RaftTypes
  import opened RaftStep

  datatype Ballot = Ballot(cand: NodeId, log: Log)
  datatype Win = Win(leader: NodeId, voters: set<NodeId>)
  datatype Commit = Commit(upto: nat, quorum: set<NodeId>)

  /** `ballots[(v, t)]`: whom v voted for in term t, and v's log then.
      `leaderLog[t]`: the log of term t's leader while it leads.
      `acks[(v, t)]`: how long a prefix of leaderLog[t] node v has confirmed in term t. */
  datatype History = History(
    ballots: map<(NodeId, Term), Ballot>,
    won: map<Term, Win>,
    leaderLog: map<Term, Log>,
    acks: map<(NodeId, Term), nat>,
    commits: map<Term, Commit>)

  ghost predicate Quorum(ids: set<NodeId>, q: set<NodeId>) {
    q <= ids && |q| >= |ids| / 2 + 1
  }

  lemma QuorumsMeet(ids: set<NodeId>, q1: set<NodeId>, q2: set<NodeId>) returns (v: NodeId)
    requires Quorum(ids, q1) && Quorum(ids, q2)
    ensures v in q1 && v in q2
  {
    if q1 !! q2 {
      assert |q1 + q2| == |q1| + |q2|;
      SubsetSize(q1 + q2, ids);
      assert false;
    }
    v :| v in q1 && v in q2;
  }

  lemma {:induction false} SubsetSize(a: set<NodeId>, b: set<NodeId>)
    requires a <= b
    ensures |a| <= |b|
  {
    assert b == a + (b - a);
  }

  /** Every prefix of a log that ends in a term-s entry is a prefix of leaderLog[s]. */
  ghost predicate Traced(h: History, log: Log) {
    forall i {:trigger TracedAt(h, log, i)} :: 0 <= i < |log| ==> TracedAt(h, log, i)
  }

  ghost predicate TracedAt(h: History, log: Log, i: nat)
    requires i < |log|
  {
    log[i].term in h.leaderLog && log[..i + 1] <= h.leaderLog[log[i].term]
  }

  ghost predicate TermsAtMost(log: Log, t: Term) {
    forall i :: 0 <= i < |log| ==> log[i].term <= t
  }

  ghost predicate Sorted(log: Log) {
    forall i, j :: 0 <= i <= j < |log| ==> log[i].term <= log[j].term
  }

  /** Either `log` holds the first k entries of leaderLog[t], or a leader elected strictly
      between t and `bound` did not have them. */
  ghost predicate Kept(h: History, log: Log, t: Term, k: nat, bound: Term)
    requires t in h.leaderLog && k <= |h.leaderLog[t]|
  {
    h.leaderLog[t][..k] <= log || exists u: Term :: Lacks(h, t, k, u) && t < u < bound
  }

  ghost predicate Lacks(h: History, t: Term, k: nat, u: Term)
    requires t in h.leaderLog && k <= |h.leaderLog[t]|
  {
    u in h.leaderLog && !(h.leaderLog[t][..k] <= h.leaderLog[u])
  }

  // ---- the invariant of a history ----------------------------------------------

  ghost predicate WinsBacked(ids: set<NodeId>, h: History) {
    && h.won.Keys == h.leaderLog.Keys
    && forall t {:trigger WinBacked(ids, h, t)} :: t in h.won ==> WinBacked(ids, h, t)
  }

  ghost predicate WinBacked(ids: set<NodeId>, h: History, t: Term)
    requires t in h.won
  {
    var w := h.won[t];
    && Quorum(ids, w.voters)
    && (w.leader, t) in h.ballots
    && (forall v :: v in w.voters ==> (v, t) in h.ballots && h.ballots[(v, t)].cand == w.leader)
  }

  ghost predicate LeaderLogsGrown(h: History) {
    forall t {:trigger LeaderLogGrown(h, t)} :: t in h.leaderLog ==> LeaderLogGrown(h, t)
  }

  /** A leader's log is its log at election, whose terms are older, plus entries of its own term. */
  ghost predicate LeaderLogGrown(h: History, t: Term)
    requires t in h.leaderLog
  {
    && t in h.won && (h.won[t].leader, t) in h.ballots
    && var start := h.ballots[(h.won[t].leader, t)].log;
    && var log := h.leaderLog[t];
    && start <= log
    && (forall i :: 0 <= i < |start| ==> log[i].term < t)
    && (forall i :: |start| <= i < |log| ==> log[i].term == t)
    && Sorted(log) && Traced(h, log)
  }

  ghost predicate BallotsSound(ids: set<NodeId>, h: History) {
    forall v, t {:trigger BallotSound(ids, h, v, t)} :: (v, t) in h.ballots ==> BallotSound(ids, h, v, t)
  }

  /** A vote went to a campaigner whose log at its campaign was at least as up to date. */
  ghost predicate BallotSound(ids: set<NodeId>, h: History, v: NodeId, t: Term)
    requires (v, t) in h.ballots
  {
    var b := h.ballots[(v, t)];
    && v in ids && Traced(h, b.log)
    && (b.cand, t) in h.ballots && h.ballots[(b.cand, t)].cand == b.cand
    && var camp := h.ballots[(b.cand, t)].log;
    && t >= 1 && TermsAtMost(camp, t - 1)
    && AtLeastAsUpToDate(LastTerm(camp), |camp|, LastTerm(b.log), |b.log|)
  }

  ghost predicate AcksSound(ids: set<NodeId>, h: History) {
    forall v, t {:trigger AckSound(ids, h, v, t)} :: (v, t) in h.acks ==> AckSound(ids, h, v, t)
  }

  ghost predicate AckSound(ids: set<NodeId>, h: History, v: NodeId, t: Term)
    requires (v, t) in h.acks
  {
    v in ids && t in h.leaderLog && h.acks[(v, t)] <= |h.leaderLog[t]|
  }

  /** Whatever a voter had confirmed before it voted, its log at the vote still holds, unless a
      leader in between lacked it; for a winner's voters that leader came before the winner. */
  ghost predicate VotersKept(h: History) {
    && (forall v, t, t' {:trigger VoterKept(h, v, t, t')} ::
          (v, t) in h.acks && (v, t') in h.ballots && t < t' ==> VoterKept(h, v, t, t'))
    && (forall v, t, t' {:trigger WinnerKept(h, v, t, t')} ::
          (v, t) in h.acks && t' in h.won && v in h.won[t'].voters && t < t' ==> WinnerKept(h, v, t, t'))
  }

  ghost predicate VoterKept(h: History, v: NodeId, t: Term, t': Term) { KeptAtVote(h, v, t, t', t' + 1) }

  ghost predicate WinnerKept(h: History, v: NodeId, t: Term, t': Term) { KeptAtVote(h, v, t, t', t') }

  ghost predicate KeptAtVote(h: History, v: NodeId, t: Term, t': Term, bound: Term) {
    && (v, t) in h.acks && (v, t') in h.ballots
    && t in h.leaderLog && h.acks[(v, t)] <= |h.leaderLog[t]|
    && AllKept(h, h.ballots[(v, t')].log, t, h.acks[(v, t)], bound)
  }

  ghost predicate AllKept(h: History, log: Log, t: Term, top: nat, bound: Term)
    requires t in h.leaderLog && top <= |h.leaderLog[t]|
  {
    forall k {:trigger Kept(h, log, t, k, bound)} :: 0 <= k <= top ==> Kept(h, log, t, k, bound)
  }

  ghost predicate CommitsBacked(ids: set<NodeId>, h: History) {
    forall t {:trigger CommitBacked(ids, h, t)} :: t in h.commits ==> CommitBacked(ids, h, t)
  }

  /** A commit: an entry of the leader's own term, confirmed by a quorum (the Figure 8 rule). */
  ghost predicate CommitBacked(ids: set<NodeId>, h: History, t: Term)
    requires t in h.commits
  {
    var k := h.commits[t].upto;
    && t in h.leaderLog && 1 <= k <= |h.leaderLog[t]| && h.leaderLog[t][k - 1].term == t
    && Quorum(ids, h.commits[t].quorum)
    && (forall v :: v in h.commits[t].quorum ==> (v, t) in h.acks && h.acks[(v, t)] >= k)
  }

  ghost predicate HistInv(ids: set<NodeId>, h: History) {
    && WinsBacked(ids, h)
    && LeaderLogsGrown(h)
    && BallotsSound(ids, h)
    && AcksSound(ids, h)
    && VotersKept(h)
    && CommitsBacked(ids, h)
  }

  // ---- Log Matching --------------------------------------------------------------

  lemma LogsMatch(h: History, a: Log, b: Log, i: nat)
    requires Traced(h, a) && Traced(h, b)
    requires 1 <= i <= |a| && i <= |b| && a[i - 1].term == b[i - 1].term
    ensures a[..i] == b[..i]
  {
    assert TracedAt(h, a, i - 1) && TracedAt(h, b, i - 1);
    var l := h.leaderLog[a[i - 1].term];
    assert a[..i] == l[..i] == b[..i];
  }

  lemma TracedIsSorted(h: History, log: Log)
    requires Traced(h, log) && LeaderLogsGrown(h)
    ensures Sorted(log)
  {
    forall i, j | 0 <= i <= j < |log| ensures log[i].term <= log[j].term {
      assert TracedAt(h, log, j);
      var l := h.leaderLog[log[j].term];
      assert LeaderLogGrown(h, log[j].term);
      assert l[i] == log[..j + 1][i] && l[j] == log[..j + 1][j];
    }
  }

  // ---- Leader Completeness ---------------------------------------------------------

  ghost predicate LeaderHolds(h: History, t: Term, u: Term) {
    && t in h.commits && t in h.leaderLog && h.commits[t].upto <= |h.leaderLog[t]| && u in h.leaderLog
    && h.leaderLog[t][..h.commits[t].upto] <= h.leaderLog[u]
  }

  /** Every leader of a later term holds everything committed in term t. */
  lemma {:induction false} LeaderComplete(ids: set<NodeId>, h: History, t: Term, t': Term)
    requires HistInv(ids, h)
    requires t in h.commits && t' in h.won && t < t'
    ensures LeaderHolds(h, t, t')
    decreases t'
  {
    forall u | t < u < t' && u in h.won ensures LeaderHolds(h, t, u) { LeaderComplete(ids, h, t, u); }
    var log, camp := VoterHeldCommit(ids, h, t, t');
    ElectedHolds(ids, h, t, t', log, camp);
    var p := h.leaderLog[t][..h.commits[t].upto];
    assert p <= camp <= h.leaderLog[t'];
  }

  lemma ElectedHolds(ids: set<NodeId>, h: History, t: Term, t': Term, log: Log, camp: Log)
    requires LeaderLogsGrown(h) && t in h.commits && CommitBacked(ids, h, t) && t < t'
    requires h.won.Keys == h.leaderLog.Keys
    requires forall u :: t < u < t' && u in h.won ==> LeaderHolds(h, t, u)
    requires h.leaderLog[t][..h.commits[t].upto] <= log && TermsAtMost(camp, t' - 1)
    requires Traced(h, log) && Traced(h, camp)
    requires AtLeastAsUpToDate(LastTerm(camp), |camp|, LastTerm(log), |log|)
    ensures h.leaderLog[t][..h.commits[t].upto] <= camp
  {
    var p := h.leaderLog[t][..h.commits[t].upto];
    assert LeaderLogGrown(h, t);
    TracedIsSorted(h, log);
    assert log[|p| - 1] == p[|p| - 1];
    if t < LastTerm(camp) {
      assert TracedAt(h, camp, |camp| - 1);
      assert LeaderHolds(h, t, LastTerm(camp));
    }
    UpToDateHolds(h, p, t, log, camp);
  }

  /** Some voter of term t' held the commit of term t when it voted. */
  lemma VoterHeldCommit(ids: set<NodeId>, h: History, t: Term, t': Term) returns (log: Log, camp: Log)
    requires HistInv(ids, h)
    requires t in h.commits && t' in h.won && t < t'
    requires forall u :: t < u < t' && u in h.won ==> LeaderHolds(h, t, u)
    ensures CommitBacked(ids, h, t) && h.leaderLog[t][..h.commits[t].upto] <= log
    ensures t' in h.leaderLog && camp <= h.leaderLog[t'] && TermsAtMost(camp, t' - 1)
    ensures Traced(h, log) && Traced(h, camp)
    ensures AtLeastAsUpToDate(LastTerm(camp), |camp|, LastTerm(log), |log|)
  {
    var k := h.commits[t].upto;
    assert CommitBacked(ids, h, t) && WinBacked(ids, h, t');
    var v := QuorumsMeet(ids, h.commits[t].quorum, h.won[t'].voters);
    log := h.ballots[(v, t')].log;
    assert WinnerKept(h, v, t, t');
    assert AllKept(h, log, t, h.acks[(v, t)], t');
    assert Kept(h, log, t, k, t');
    assert h.leaderLog[t][..k] <= log;
    assert BallotSound(ids, h, v, t') && LeaderLogGrown(h, t');
    camp := h.ballots[(h.won[t'].leader, t')].log;
    assert BallotSound(ids, h, h.won[t'].leader, t');
  }

  /** A log at least as up to date as one holding p, which ends in term t, holds p too, given
      that the leader of its last term does. */
  lemma UpToDateHolds(h: History, p: Log, t: Term, log: Log, camp: Log)
    requires |p| > 0 && p[|p| - 1].term == t && Sorted(p)
    requires Traced(h, log) && Traced(h, camp)
    requires p <= log && LastTerm(log) >= t
    requires AtLeastAsUpToDate(LastTerm(camp), |camp|, LastTerm(log), |log|)
    requires t < LastTerm(camp) ==> LastTerm(camp) in h.leaderLog && p <= h.leaderLog[LastTerm(camp)]
    ensures p <= camp
  {
    var s := LastTerm(camp);
    if LastTerm(log) == s {
      assert TracedAt(h, log, |log| - 1) && TracedAt(h, camp, |camp| - 1);
      assert log[..|log| - 1 + 1] == log && camp[..|camp| - 1 + 1] == camp;
      assert log == h.leaderLog[s][..|log|] == camp[..|log|];
    } else {
      var l := h.leaderLog[s];
      assert TracedAt(h, camp, |camp| - 1);
      assert camp[..|camp| - 1 + 1] == camp;
      assert |camp| >= |p|;
      assert camp[..|p|] == l[..|p|] == p;
    }
  }
}
