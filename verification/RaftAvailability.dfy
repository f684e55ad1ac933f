/** Any majority suffices: from whatever state a run has reached, more than half of the nodes, left to themselves,
    can elect a leader, commit a command and hand it over at every one of them. */
module RaftAvailability {
  import opened RaftTypes
  import opened RaftStep
  import opened RaftHistory
  import opened RaftInvariant
  import opened RaftHandlers
  import opened RaftCluster
  import opened RaftSafety
  import opened RaftElections
  import opened RaftPromptness
  import opened RaftReplication
  import opened RaftBacktracking

  // ---- going on with a run ----------------------------------------------------------------------------------

  datatype Path = Path(run: seq<State>, acts: seq<Action>)

  ghost function End(p: Path): State
    requires p.run != []
  {
    p.run[|p.run| - 1]
  }

  /** p' is a run that goes on from p; all that is new are events at nodes of q, and none of them crashes. */
  ghost predicate GoesOn(cl: Cluster, q: set<NodeId>, p: Path, p': Path) {
    && IsRun(cl, p.run, p.acts) && IsRun(cl, p'.run, p'.acts) && p.run <= p'.run && p.acts <= p'.acts
    && forall k :: |p.acts| <= k < |p'.acts| ==> p'.acts[k].Run? && p'.acts[k].i in q
  }

  lemma Onwards(cl: Cluster, q: set<NodeId>, p: Path, p1: Path, p2: Path)
    requires GoesOn(cl, q, p, p1) && GoesOn(cl, q, p1, p2)
    ensures GoesOn(cl, q, p, p2)
  {
    assert forall k :: |p.acts| <= k < |p1.acts| ==> p2.acts[k] == p1.acts[k];
  }

  /** Between s and s' only node i has changed, and no packet is gone. */
  ghost predicate OnlyMoves(s: State, i: NodeId, s': State) {
    && i in s.nodes && s'.nodes.Keys == s.nodes.Keys && s.msgs <= s'.msgs
    && forall j :: j in s.nodes && j != i ==> s'.nodes[j] == s.nodes[j]
  }

  lemma Go(cl: Cluster, q: set<NodeId>, p: Path, i: NodeId, e: Event, room: nat) returns (p': Path)
    requires IsRun(cl, p.run, p.acts) && i in q && Enabled(cl, End(p), i, e)
    ensures GoesOn(cl, q, p, p') && OnlyMoves(End(p), i, End(p'))
    ensures |p'.run| == |p.run| + 1 && p'.acts == p.acts + [Run(i, e, room)]
    ensures var o := Step(Config(i, cl[i]), End(p).nodes[i], e, room);
            End(p').nodes[i] == o.node && End(p').msgs == End(p).msgs + Sent(i, o.effects)
  {
    var s := End(p);
    var o := Step(Config(i, cl[i]), s.nodes[i], e, room);
    var s' := State(s.nodes[i := o.node], s.msgs + Sent(i, o.effects));
    p' := Path(p.run + [s'], p.acts + [Run(i, e, room)]);
    assert Next(cl, s, Run(i, e, room), s');
    forall k | 0 <= k < |p'.acts| ensures StepAt(cl, p'.run, p'.acts, k) {
      if k < |p.acts| { assert StepAt(cl, p.run, p.acts, k); }
    }
  }

  lemma Members(cl: Cluster, p: Path)
    requires IsRun(cl, p.run, p.acts)
    ensures End(p).nodes.Keys == cl.Keys
  {
    var hs := RunInv(cl, p.run, p.acts);
    LastInv(cl, p.run, hs);
  }

  // ---- an election --------------------------------------------------------------------------------------------

  lemma {:induction false} SomeTermIsHighest(nodes: map<NodeId, Node>, q: set<NodeId>) returns (c: NodeId)
    requires q != {} && q <= nodes.Keys
    ensures c in q && forall v :: v in q ==> nodes[v].term <= nodes[c].term
    decreases |q|
  {
    var v :| v in q;
    if q == {v} {
      c := v;
    } else {
      var rest := q - {v};
      var w :| w in q && w != v;
      assert w in rest;
      var high := SomeTermIsHighest(nodes, rest);
      c := if nodes[v].term > nodes[high].term then v else high;
      forall w | w in q ensures nodes[w].term <= nodes[c].term {
        if w != v { assert w in rest; }
      }
    }
  }

  /** Node b campaigns in term t with this log; v is sent its request. */
  predicate Asked(s: State, b: NodeId, t: Term, log: Log, v: NodeId) {
    Packet(b, v, RequestVote(t, b, |log|, LastTerm(log))) in s.msgs
  }

  lemma SentTo(i: NodeId, es: seq<Effect>, to: NodeId, m: Msg)
    requires Send(to, m) in es
    ensures Packet(i, to, m) in Sent(i, es)
  {}

  lemma Campaign(cl: Cluster, q: set<NodeId>, p: Path, b: NodeId) returns (p': Path)
    requires IsRun(cl, p.run, p.acts) && b in q && b in cl && b in End(p).nodes && !End(p).nodes[b].role.Leader?
    ensures GoesOn(cl, q, p, p') && OnlyMoves(End(p), b, End(p'))
    ensures var n, n' := End(p).nodes[b], End(p').nodes[b];
            && n'.term == n.term + 1 && n'.log == n.log && n'.votes == {b}
            && n'.role == (if cl.Keys == {b} then Leader else Candidate)
            && forall v :: v in cl && v != b ==> Asked(End(p'), b, n.term + 1, n.log, v)
  {
    p' := Go(cl, q, p, b, TimerFires, 0);
    var c, n := Config(b, cl[b]), End(p).nodes[b];
    assert ConfigOk(cl.Keys, c);
    CampaignAsksAll(cl.Keys, c, n, 0, b);
    var es := Step(c, n, TimerFires, 0).effects;
    forall v | v in cl && v != b ensures Asked(End(p'), b, n.term + 1, n.log, v) {
      CampaignAsksAll(cl.Keys, c, n, 0, v);
      SentTo(b, es, v, RequestVote(n.term + 1, b, |n.log|, LastTerm(n.log)));
    }
  }

  lemma RequestsLeaveLogs(c: Config, n: Node, from: NodeId, m: Msg, room: nat)
    requires m.RequestVote?
    ensures Step(c, n, Receive(from, m), room).node.log == n.log
  {}

  lemma Hear(cl: Cluster, q: set<NodeId>, p: Path, v: NodeId, b: NodeId, t: Term, log: Log) returns (p': Path)
    requires IsRun(cl, p.run, p.acts) && v in q && v in cl && v in End(p).nodes
    requires Asked(End(p), b, t, log, v) && End(p).nodes[v].term < t
    ensures GoesOn(cl, q, p, p') && OnlyMoves(End(p), v, End(p'))
    ensures var n, n' := End(p).nodes[v], End(p').nodes[v];
            && n'.term == t && n'.role.Follower? && n'.log == n.log
            && (!Ahead(n.log, log) ==> Packet(v, b, RequestVoteReply(t, true)) in End(p').msgs)
  {
    var e, c, n := Receive(b, RequestVote(t, b, |log|, LastTerm(log))), Config(v, cl[v]), End(p).nodes[v];
    p' := Go(cl, q, p, v, e, 0);
    LaterTermDeposes(c, n, b, e.msg, 0);
    RequestsLeaveLogs(c, n, b, e.msg, 0);
    VoteExactly(c, n, b, t, log, 0);
    if !Ahead(n.log, log) { SentTo(v, Step(c, n, e, 0).effects, b, RequestVoteReply(t, true)); }
  }

  /** Everybody in q hears of term t, in which c campaigns. */
  lemma {:induction false} Spread(cl: Cluster, q: set<NodeId>, p: Path, c: NodeId, t: Term, log: Log,
                                  todo: set<NodeId>) returns (p': Path)
    requires IsRun(cl, p.run, p.acts) && q <= cl.Keys && todo <= q && End(p).nodes.Keys == cl.Keys
    requires forall v :: v in q - todo ==> End(p).nodes[v].term == t && !End(p).nodes[v].role.Leader?
    requires forall v :: v in todo ==> End(p).nodes[v].term < t && Asked(End(p), c, t, log, v)
    ensures GoesOn(cl, q, p, p') && End(p').nodes.Keys == cl.Keys
    ensures forall v :: v in q ==> End(p').nodes[v].term == t && !End(p').nodes[v].role.Leader?
    decreases |todo|
  {
    if todo == {} {
      p' := p;
    } else {
      var v :| v in todo;
      var p1 := Hear(cl, q, p, v, c, t, log);
      p' := Spread(cl, q, p1, c, t, log, todo - {v});
      Onwards(cl, q, p, p1, p');
    }
  }

  /** Leader l of term t, which nobody in q is beyond. */
  ghost predicate Office(s: State, q: set<NodeId>, l: NodeId, t: Term) {
    && l in q && q <= s.nodes.Keys && Leads(s.nodes[l], t)
    && forall v :: v in q ==> s.nodes[v].term <= t
  }

  /** Candidate b of term t has collected the votes of all of q but todo, or more than it needs. */
  ghost predicate Collecting(ids: set<NodeId>, s: State, q: set<NodeId>, b: NodeId, t: Term, todo: set<NodeId>) {
    && b in q && b in s.nodes && s.nodes[b].term == t
    && (s.nodes[b].role.Leader?
        || (s.nodes[b].role.Candidate? && q - todo <= s.nodes[b].votes && !MoreThanHalf(ids, s.nodes[b].votes)))
  }

  lemma VotesAreMembers(cl: Cluster, p: Path, b: NodeId)
    requires IsRun(cl, p.run, p.acts) && b in End(p).nodes && End(p).nodes[b].role.Candidate?
    ensures End(p).nodes[b].votes <= cl.Keys
  {
    var hs := RunInv(cl, p.run, p.acts);
    LastInv(cl, p.run, hs);
    assert NodeInv(cl.Keys, hs[|hs| - 1], b, End(p).nodes[b]);
  }

  lemma LeaderIgnoresVotes(c: Config, n: Node, from: NodeId, room: nat)
    requires n.role.Leader?
    ensures Step(c, n, Receive(from, RequestVoteReply(n.term, true)), room).node == n
  {}

  lemma Count(cl: Cluster, q: set<NodeId>, p: Path, b: NodeId, t: Term, v: NodeId, todo: set<NodeId>) returns (p': Path)
    requires IsRun(cl, p.run, p.acts) && q <= cl.Keys && v in q && Collecting(cl.Keys, End(p), q, b, t, todo)
    requires Packet(v, b, RequestVoteReply(t, true)) in End(p).msgs
    ensures GoesOn(cl, q, p, p') && OnlyMoves(End(p), b, End(p'))
    ensures Collecting(cl.Keys, End(p'), q, b, t, todo - {v})
  {
    var c, n := Config(b, cl[b]), End(p).nodes[b];
    assert ConfigOk(cl.Keys, c);
    p' := Go(cl, q, p, b, Receive(v, RequestVoteReply(t, true)), 0);
    if n.role.Leader? {
      LeaderIgnoresVotes(c, n, v, 0);
    } else {
      VotesAreMembers(cl, p, b);
      WinsExactly(cl.Keys, c, n, v, 0);
    }
  }

  /** The nodes in todo have been asked, have not voted and will; the rest of q is not beyond term t. */
  ghost predicate Canvassing(s: State, q: set<NodeId>, b: NodeId, t: Term, log: Log, todo: set<NodeId>) {
    && q <= s.nodes.Keys && todo <= q - {b}
    && (forall v :: v in q - todo ==> s.nodes[v].term <= t)
    && (forall v :: v in todo ==> WillVote(s, b, t, log, v))
  }

  ghost predicate WillVote(s: State, b: NodeId, t: Term, log: Log, v: NodeId) {
    v in s.nodes && s.nodes[v].term < t && Asked(s, b, t, log, v) && !Ahead(s.nodes[v].log, log)
  }

  lemma OneLess(s: State, s': State, q: set<NodeId>, b: NodeId, t: Term, log: Log, todo: set<NodeId>, v: NodeId)
    requires Canvassing(s, q, b, t, log, todo) && OnlyMoves(s, v, s') && s'.nodes[v].term == t
    ensures Canvassing(s', q, b, t, log, todo - {v})
  {
    forall w | w in todo - {v} ensures WillVote(s', b, t, log, w) { assert WillVote(s, b, t, log, w); }
  }

  /** Node b collects the votes of q one by one. */
  lemma {:induction false} Collect(cl: Cluster, q: set<NodeId>, p: Path, b: NodeId, t: Term, log: Log,
                                   todo: set<NodeId>) returns (p': Path)
    requires IsRun(cl, p.run, p.acts) && MoreThanHalf(cl.Keys, q)
    requires Collecting(cl.Keys, End(p), q, b, t, todo) && Canvassing(End(p), q, b, t, log, todo)
    ensures GoesOn(cl, q, p, p') && Office(End(p'), q, b, t)
    decreases |todo|
  {
    if todo == {} {
      p' := p;
      AllCollected(cl, q, p, b, t);
    } else {
      var v :| v in todo;
      assert WillVote(End(p), b, t, log, v);
      var p1 := Hear(cl, q, p, v, b, t, log);
      OneLess(End(p), End(p1), q, b, t, log, todo, v);
      var p2 := Count(cl, q, p1, b, t, v, todo);
      OneLess(End(p1), End(p2), q, b, t, log, todo - {v}, b);
      assert todo - {v} - {b} == todo - {v};
      Onwards(cl, q, p, p1, p2);
      p' := Collect(cl, q, p2, b, t, log, todo - {v});
      Onwards(cl, q, p, p2, p');
    }
  }

  lemma AllCollected(cl: Cluster, q: set<NodeId>, p: Path, b: NodeId, t: Term)
    requires IsRun(cl, p.run, p.acts) && MoreThanHalf(cl.Keys, q) && Collecting(cl.Keys, End(p), q, b, t, {})
    ensures Leads(End(p).nodes[b], t)
  {
    if !End(p).nodes[b].role.Leader? {
      VotesAreMembers(cl, p, b);
      SubsetSize(q, End(p).nodes[b].votes);
      assert false;
    }
  }

  /** All of q are in term t and none of them leads: the one with the best log wins the next term. */
  lemma BestWins(cl: Cluster, q: set<NodeId>, p: Path, t: Term) returns (p': Path, l: NodeId)
    requires IsRun(cl, p.run, p.acts) && MoreThanHalf(cl.Keys, q) && End(p).nodes.Keys == cl.Keys
    requires forall v :: v in q ==> End(p).nodes[v].term == t && !End(p).nodes[v].role.Leader?
    ensures GoesOn(cl, q, p, p') && Office(End(p'), q, l, t + 1)
  {
    l := SomeLogIsBest(End(p).nodes, q);
    var p1 := Campaign(cl, q, p, l);
    var log := End(p).nodes[l].log;
    OnlyMember(cl.Keys, l);
    forall v | v in q - {l} ensures WillVote(End(p1), l, t + 1, log, v) {}
    p' := Collect(cl, q, p1, l, t + 1, log, q - {l});
    Onwards(cl, q, p, p1, p');
  }

  /** Node c, in the highest term t of q, has all of q leave that term, in which nobody in q leads. */
  lemma MoveOn(cl: Cluster, q: set<NodeId>, p: Path, c: NodeId, t: Term) returns (p': Path)
    requires IsRun(cl, p.run, p.acts) && q <= cl.Keys && c in q && cl.Keys != {c} && End(p).nodes.Keys == cl.Keys
    requires End(p).nodes[c].term == t && !End(p).nodes[c].role.Leader?
    requires forall v :: v in q ==> End(p).nodes[v].term <= t
    ensures GoesOn(cl, q, p, p') && End(p').nodes.Keys == cl.Keys
    ensures forall v :: v in q ==> End(p').nodes[v].term == t + 1 && !End(p').nodes[v].role.Leader?
  {
    var p1 := Campaign(cl, q, p, c);
    p' := Spread(cl, q, p1, c, t + 1, End(p).nodes[c].log, q - {c});
    Onwards(cl, q, p, p1, p');
  }

  /** A majority can elect a leader that none of it is ahead of. */
  lemma Elect(cl: Cluster, q: set<NodeId>, p: Path) returns (p': Path, l: NodeId, t: Term)
    requires IsRun(cl, p.run, p.acts) && MoreThanHalf(cl.Keys, q)
    ensures GoesOn(cl, q, p, p') && Office(End(p'), q, l, t)
  {
    Members(cl, p);
    var c := SomeTermIsHighest(End(p).nodes, q);
    t := End(p).nodes[c].term;
    if v :| v in q && Leads(End(p).nodes[v], t) {
      p', l := p, v;
    } else if cl.Keys == {c} {
      p' := Campaign(cl, q, p, c);
      l, t := c, t + 1;
    } else {
      var p1 := MoveOn(cl, q, p, c, t);
      p', l := BestWins(cl, q, p1, t + 1);
      Onwards(cl, q, p, p1, p');
      t := t + 2;
    }
  }

  // ---- bringing the followers up to date ------------------------------------------------------------------------

  /** Leader l of term t with this log; nobody in q is beyond t, and the peers in done hold all of the log. */
  ghost predicate Replicating(s: State, q: set<NodeId>, l: NodeId, t: Term, log: Log, done: set<NodeId>) {
    && Office(s, q, l, t) && s.nodes[l].log == log
    && forall v :: v in done ==> Get(s.nodes[l].matchIndex, v) == |log|
  }

  lemma LeaderBeats(c: Config, n: Node)
    requires n.role.Leader?
    ensures Step(c, n, TimerFires, 0).node == n
  {}

  /** The leader's timer fires: v is sent all the leader has for it. */
  lemma Beat(cl: Cluster, q: set<NodeId>, p: Path, l: NodeId, v: NodeId) returns (p': Path, m: Msg)
    requires IsRun(cl, p.run, p.acts) && l in q && l in cl && l in End(p).nodes && End(p).nodes[l].role.Leader?
    requires v in cl && v != l
    ensures GoesOn(cl, q, p, p') && End(p').nodes == End(p).nodes
    ensures Packet(l, v, m) in End(p').msgs && Window(l, End(p).nodes[l], v, m)
  {
    p' := Go(cl, q, p, l, TimerFires, 0);
    LeaderBeats(Config(l, cl[l]), End(p).nodes[l]);
    assert p'.run[|p.acts|] == End(p) && p'.run[|p.acts| + 1] == End(p');
    m := WritesEverything(cl, p'.run, p'.acts, |p.acts|, v);
  }

  lemma Follow(cl: Cluster, q: set<NodeId>, p: Path, v: NodeId, l: NodeId, m: Msg) returns (p': Path, r: Msg)
    requires IsRun(cl, p.run, p.acts) && v in q && v in cl && v in End(p).nodes
    requires Packet(l, v, m) in End(p).msgs && m.AppendEntries? && End(p).nodes[v].term <= m.term
    ensures GoesOn(cl, q, p, p') && OnlyMoves(End(p), v, End(p'))
    ensures Obeys(End(p).nodes[v], m, End(p').nodes[v]) && Answers(End(p).nodes[v], m, r)
    ensures Packet(v, l, r) in End(p').msgs
  {
    p' := Go(cl, q, p, v, Receive(l, m), 0);
    assert p'.run[|p.acts|] == End(p) && p'.run[|p.acts| + 1] == End(p');
    r := AppendExactly(cl, p'.run, p'.acts, |p.acts|);
  }

  /** What the leader's handling of a reply leaves as it was. */
  lemma Digest(cl: Cluster, q: set<NodeId>, p: Path, l: NodeId, v: NodeId, r: Msg) returns (p': Path)
    requires IsRun(cl, p.run, p.acts) && l in q && l in cl && l in End(p).nodes && v in cl && v != l
    requires Packet(v, l, r) in End(p).msgs && r.AppendEntriesReply? && Leads(End(p).nodes[l], r.term)
    ensures GoesOn(cl, q, p, p') && OnlyMoves(End(p), l, End(p'))
    ensures var n, n' := End(p).nodes[l], End(p').nodes[l];
            && Leads(n', n.term) && n'.log == n.log
            && (forall w :: w != v ==> Get(n'.matchIndex, w) == Get(n.matchIndex, w))
            && (r.success && r.conflictIndex == |n.log| ==> Get(n'.matchIndex, v) == |n.log|)
            && (!r.success ==> n'.matchIndex == n.matchIndex && Get(n'.nextIndex, v) == Backtracked(n, v, r))
  {
    var c, n := Config(l, cl[l]), End(p).nodes[l];
    NextIndexBounds(cl, p.run, p.acts, |p.acts|, l, v);
    p' := Go(cl, q, p, l, Receive(v, r), 0);
    ReplyWrites(c, n, v, r, 0);
  }

  /** A rejected probe lowers the leader's nextIndex. */
  lemma ProbeLower(cl: Cluster, p: Path, l: NodeId, v: NodeId, m: Msg, r: Msg)
    requires IsRun(cl, p.run, p.acts) && l in cl && l in End(p).nodes && v in End(p).nodes && v != l
    requires End(p).nodes[l].role.Leader? && End(p).nodes[v].term <= End(p).nodes[l].term
    requires Window(l, End(p).nodes[l], v, m) && Answers(End(p).nodes[v], m, r) && !r.success
    ensures Backtracked(End(p).nodes[l], v, r) < Get(End(p).nodes[l].nextIndex, v)
  {
    var c, n, f := Config(l, cl[l]), End(p).nodes[l], End(p).nodes[v];
    var h := ProbingAt(cl, p.run, p.acts, |p.acts|, l, v);
    BacktrackedBounds(h, n, v, f.log, r);
    if Get(n.nextIndex, v) == Get(n.matchIndex, v) + 1 { MatchAccepted(h, c, n, f, v); }
  }

  /** One probe of v and the handling of its answer. */
  lemma Probe(cl: Cluster, q: set<NodeId>, p: Path, l: NodeId, t: Term, log: Log, done: set<NodeId>, v: NodeId)
    returns (p': Path, taken: bool)
    requires IsRun(cl, p.run, p.acts) && q <= cl.Keys && v in q && v != l && v !in done
    requires Replicating(End(p), q, l, t, log, done)
    ensures GoesOn(cl, q, p, p')
    ensures Replicating(End(p'), q, l, t, log, if taken then done + {v} else done)
    ensures !taken ==> Get(End(p').nodes[l].nextIndex, v) < Get(End(p).nodes[l].nextIndex, v)
  {
    var p1, m := Beat(cl, q, p, l, v);
    var p2, r := Follow(cl, q, p1, v, l, m);
    Onwards(cl, q, p, p1, p2);
    p' := Digest(cl, q, p2, l, v, r);
    Onwards(cl, q, p, p2, p');
    taken := r.success;
    if !taken { ProbeLower(cl, p1, l, v, m, r); }
    assert taken ==> r.conflictIndex == |log|;
  }

  /** Node v comes to hold the leader's log, and the leader to know it. */
  lemma {:induction false} CatchUp(cl: Cluster, q: set<NodeId>, p: Path, l: NodeId, t: Term, log: Log,
                                   done: set<NodeId>, v: NodeId) returns (p': Path)
    requires IsRun(cl, p.run, p.acts) && q <= cl.Keys && v in q && v != l && v !in done
    requires Replicating(End(p), q, l, t, log, done)
    ensures GoesOn(cl, q, p, p') && Replicating(End(p'), q, l, t, log, done + {v})
    decreases Get(End(p).nodes[l].nextIndex, v)
  {
    var p1, taken := Probe(cl, q, p, l, t, log, done, v);
    if taken {
      p' := p1;
    } else {
      p' := CatchUp(cl, q, p1, l, t, log, done, v);
      Onwards(cl, q, p, p1, p');
    }
  }

  lemma {:induction false} CatchUpAll(cl: Cluster, q: set<NodeId>, p: Path, l: NodeId, t: Term, log: Log,
                                      done: set<NodeId>) returns (p': Path)
    requires IsRun(cl, p.run, p.acts) && q <= cl.Keys && done <= q - {l} && Replicating(End(p), q, l, t, log, done)
    ensures GoesOn(cl, q, p, p') && Replicating(End(p'), q, l, t, log, q - {l})
    decreases q - {l} - done
  {
    var todo := q - {l} - done;
    if todo == {} {
      assert done == q - {l};
      p' := p;
    } else {
      var v :| v in todo;
      var p1 := CatchUp(cl, q, p, l, t, log, done, v);
      p' := CatchUpAll(cl, q, p1, l, t, log, done + {v});
      Onwards(cl, q, p, p1, p');
    }
  }

  /** What all of a majority hold is committed, if it ends in the leader's term. */
  lemma HeldIsCommitted(cl: Cluster, q: set<NodeId>, p: Path, l: NodeId, t: Term, log: Log)
    requires IsRun(cl, p.run, p.acts) && MoreThanHalf(cl.Keys, q) && Replicating(End(p), q, l, t, log, q - {l})
    requires log != [] && LastTerm(log) == t
    ensures End(p).nodes[l].commitIndex == |log|
  {
    var n, held := End(p).nodes[l], KnownHolders(cl.Keys, l, End(p).nodes[l], |log|);
    LeadersArePrompt(cl, p.run, p.acts, |p.acts|, l);
    CommitBounds(cl, p.run, p.acts, |p.acts|, l);
    assert q <= held;
    SubsetSize(q, held);
  }

  // ---- handing over ---------------------------------------------------------------------------------------------

  lemma Proposal(c: Config, n: Node, cmd: Command)
    requires n.role.Leader?
    ensures var n' := Step(c, n, ClientProposes([cmd]), 0).node;
            Leads(n', n.term) && n'.log == n.log + [Entry(n.term, cmd)] && n'.matchIndex == n.matchIndex
  {
    assert Stamped(n.term, [cmd]) == [Entry(n.term, cmd)];
  }

  lemma Submit(cl: Cluster, q: set<NodeId>, p: Path, l: NodeId, t: Term, cmd: Command) returns (p': Path, log: Log)
    requires IsRun(cl, p.run, p.acts) && q <= cl.Keys && Office(End(p), q, l, t)
    ensures GoesOn(cl, q, p, p') && Replicating(End(p'), q, l, t, log, {})
    ensures log != [] && log[|log| - 1] == Entry(t, cmd)
  {
    p' := Go(cl, q, p, l, ClientProposes([cmd]), 0);
    Proposal(Config(l, cl[l]), End(p).nodes[l], cmd);
    log := End(p').nodes[l].log;
  }

  /** Every node of told has handed over exactly this log; leader l has committed it, and all of q hold it. */
  ghost predicate Delivering(s: State, q: set<NodeId>, l: NodeId, t: Term, log: Log, told: set<NodeId>) {
    && Replicating(s, q, l, t, log, q - {l}) && s.nodes[l].commitIndex == |log|
    && told <= q && forall v :: v in told ==> s.nodes[v].handed == log
  }

  /** A node that knows of the commit and holds the log hands all of it over. */
  lemma Pump(cl: Cluster, q: set<NodeId>, p: Path, v: NodeId, log: Log) returns (p': Path)
    requires IsRun(cl, p.run, p.acts) && v in q && v in cl && v in End(p).nodes
    requires End(p).nodes[v].commitIndex == |log| && log <= End(p).nodes[v].log
    ensures GoesOn(cl, q, p, p') && OnlyMoves(End(p), v, End(p'))
    ensures var n, n' := End(p).nodes[v], End(p').nodes[v];
            && n'.handed == log && n'.term == n.term && n'.role == n.role && n'.log == n.log
            && n'.commitIndex == n.commitIndex && n'.matchIndex == n.matchIndex
  {
    p' := Go(cl, q, p, v, PumpApply, |log|);
    assert p'.run[|p.acts|] == End(p) && p'.run[|p.acts| + 1] == End(p');
    CommittedIsHandedOver(cl, p'.run, p'.acts, |p.acts|);
    CommitBounds(cl, p.run, p.acts, |p.acts|, v);
    CommitBounds(cl, p'.run, p'.acts, |p'.acts|, v);
  }

  /** Node v learns of the commit. */
  lemma Tell(cl: Cluster, q: set<NodeId>, p: Path, l: NodeId, t: Term, log: Log, told: set<NodeId>, v: NodeId)
    returns (p': Path)
    requires IsRun(cl, p.run, p.acts) && q <= cl.Keys && v in q && v != l && v !in told
    requires Delivering(End(p), q, l, t, log, told)
    ensures GoesOn(cl, q, p, p') && Delivering(End(p'), q, l, t, log, told)
    ensures End(p').nodes[v].commitIndex == |log| && log <= End(p').nodes[v].log
  {
    var p1, m := Beat(cl, q, p, l, v);
    var h := ProbingAt(cl, p1.run, p1.acts, |p1.acts|, l, v);
    NextIndexBounds(cl, p.run, p.acts, |p.acts|, l, v);
    LeaderCompleteness(cl, p1.run, p1.acts, |p1.acts|, |p1.acts|, v, l);
    var r;
    p', r := Follow(cl, q, p1, v, l, m);
    Onwards(cl, q, p, p1, p');
  }

  lemma {:induction false} TellAll(cl: Cluster, q: set<NodeId>, p: Path, l: NodeId, t: Term, log: Log,
                                   told: set<NodeId>) returns (p': Path)
    requires IsRun(cl, p.run, p.acts) && q <= cl.Keys && told <= q - {l} && Delivering(End(p), q, l, t, log, told)
    ensures GoesOn(cl, q, p, p') && Delivering(End(p'), q, l, t, log, q)
    decreases q - {l} - told
  {
    var todo := q - {l} - told;
    if todo == {} {
      assert told == q - {l};
      p' := Pump(cl, q, p, l, log);
    } else {
      var v :| v in todo;
      var p1 := Tell(cl, q, p, l, t, log, told, v);
      var p2 := Pump(cl, q, p1, v, log);
      Onwards(cl, q, p, p1, p2);
      p' := TellAll(cl, q, p2, l, t, log, told + {v});
      Onwards(cl, q, p, p2, p');
    }
  }

  /** From every state of every run, any set of more than half of the nodes can, on its own, bring a command
      through: there is a continuation in which only they act, none crashes, and all of them have handed over
      one and the same log, which ends with the command. */
  lemma MajoritySuffices(cl: Cluster, q: set<NodeId>, run: seq<State>, acts: seq<Action>, cmd: Command)
    returns (p: Path, log: Log)
    requires IsRun(cl, run, acts) && MoreThanHalf(cl.Keys, q)
    ensures GoesOn(cl, q, Path(run, acts), p)
    ensures log != [] && log[|log| - 1].command == cmd
    ensures q <= End(p).nodes.Keys && forall v :: v in q ==> End(p).nodes[v].handed == log
  {
    var p0 := Path(run, acts);
    var p1, l, t := Elect(cl, q, p0);
    var p2;
    p2, log := Submit(cl, q, p1, l, t, cmd);
    Onwards(cl, q, p0, p1, p2);
    var p3 := CatchUpAll(cl, q, p2, l, t, log, {});
    Onwards(cl, q, p0, p2, p3);
    HeldIsCommitted(cl, q, p3, l, t, log);
    p := TellAll(cl, q, p3, l, t, log, {});
    Onwards(cl, q, p0, p3, p);
  }
}
