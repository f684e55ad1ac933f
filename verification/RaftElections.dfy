/** What a node owes the others in an election: a vote to every candidate whose log is not behind its own, and
    office to whoever holds the votes of more than half of the nodes. */
module RaftElections {
  import opened Common
  import opened RaftTypes
  import opened RaftStep
  import opened RaftHistory
  import opened RaftHandlers
  import opened RaftCluster

  // ---- votes ----------------------------------------------------------------------------------------------

  /** Node n has not voted for anyone but i in term t, and is not beyond it. */
  predicate MayVoteFor(n: Node, i: NodeId, t: Term) {
    n.term < t || (n.term == t && (n.vote.None? || n.vote == Some(i)))
  }

  /** Asked by i, in term t and with i's log, node n grants its vote. */
  ghost predicate VotesFor(c: Config, n: Node, i: NodeId, t: Term, log: Log, room: nat) {
    Send(i, RequestVoteReply(t, true))
      in Step(c, n, Receive(i, RequestVote(t, i, |log|, LastTerm(log))), room).effects
  }

  /** Log m is ahead of log l: it ends in a later term, or in the same one and is longer. */
  predicate Ahead(m: Log, l: Log) { LastTerm(m) > LastTerm(l) || (LastTerm(m) == LastTerm(l) && |m| > |l|) }

  /** A vote is granted exactly to a candidate of the voter's term or a later one, as long as it has not gone to
      another, and unless the voter's log is ahead. */
  lemma VoteExactly(c: Config, n: Node, i: NodeId, t: Term, log: Log, room: nat)
    ensures VotesFor(c, n, i, t, log, room) <==> MayVoteFor(n, i, t) && !Ahead(n.log, log)
  {
    var rv := RequestVote(t, i, |log|, LastTerm(log));
    var a := Adopt(n, t);
    var b := OnRequestVote(a.node, i, rv);
    var es := Step(c, n, Receive(i, rv), room).effects;
    assert es == a.effects + b.effects;
    if MayVoteFor(n, i, t) && !Ahead(n.log, log) {
      assert es[|a.effects| + 1] == Send(i, RequestVoteReply(t, true));
    } else {
      assert forall k :: 0 <= k < |es| ==> es[k] != Send(i, RequestVoteReply(t, true));
    }
  }

  /** A vote that is not granted is denied, and the candidate is told the voter's term. */
  lemma VoteIsAnswered(c: Config, n: Node, i: NodeId, t: Term, log: Log, room: nat)
    requires !VotesFor(c, n, i, t, log, room)
    ensures Send(i, RequestVoteReply(Max(n.term, t), false))
              in Step(c, n, Receive(i, RequestVote(t, i, |log|, LastTerm(log))), room).effects
  {
    var rv := RequestVote(t, i, |log|, LastTerm(log));
    var a := Adopt(n, t);
    var es := Step(c, n, Receive(i, rv), room).effects;
    assert es == a.effects + OnRequestVote(a.node, i, rv).effects;
    VoteExactly(c, n, i, t, log, room);
    assert es[|es| - 1] == Send(i, RequestVoteReply(Max(n.term, t), false));
  }

  /** Any message of a later term makes its reader a follower of that term. */
  lemma LaterTermDeposes(c: Config, n: Node, from: NodeId, m: Msg, room: nat)
    requires m.term > n.term
    ensures var n' := Step(c, n, Receive(from, m), room).node; n'.term == m.term && n'.role.Follower?
  {}

  /** A request of an earlier term changes nothing and is answered with the reader's term; a reply of an
      earlier term is ignored. */
  lemma EarlierTermIsRefused(c: Config, n: Node, from: NodeId, m: Msg, room: nat)
    requires m.term < n.term
    ensures Step(c, n, Receive(from, m), room)
            == match m
               case RequestVote(_, _, _, _) => Outcome(n, [Send(from, RequestVoteReply(n.term, false))])
               case AppendEntries(_, _, _, _, _, _) => Outcome(n, [Send(from, AppendEntriesReply(n.term, false, 0, 0))])
               case _ => Outcome(n, [])
  {
    assert forall es: seq<Effect> :: [] + es == es;
  }

  /** Whatever their logs, of two nodes that may still vote for each other one gets the other's vote. */
  lemma OneGetsTheVote(c: Config, n: Node, d: Config, m: Node, t: Term, room: nat)
    requires MayVoteFor(n, d.self, t) && MayVoteFor(m, c.self, t)
    ensures VotesFor(d, m, c.self, t, n.log, room) || VotesFor(c, n, d.self, t, m.log, room)
  {
    VoteExactly(d, m, c.self, t, n.log, room);
    VoteExactly(c, n, d.self, t, m.log, room);
  }

  /** No node of q has a log ahead of node b's. */
  ghost predicate Best(nodes: map<NodeId, Node>, q: set<NodeId>, b: NodeId) {
    b in q && q <= nodes.Keys && forall v :: v in q ==> !Ahead(nodes[v].log, nodes[b].log)
  }

  lemma {:induction false} SomeLogIsBest(nodes: map<NodeId, Node>, q: set<NodeId>) returns (b: NodeId)
    requires q != {} && q <= nodes.Keys
    ensures Best(nodes, q, b)
    decreases |q|
  {
    var v :| v in q;
    if q == {v} {
      b := v;
    } else {
      var rest := q - {v};
      var w :| w in q && w != v;
      assert w in rest;
      var best := SomeLogIsBest(nodes, rest);
      b := if Ahead(nodes[v].log, nodes[best].log) then v else best;
      forall w | w in q ensures !Ahead(nodes[w].log, nodes[b].log) {
        if w != v { assert w in rest; }
      }
    }
  }

  /** In any state and among any nodes there is one that all the others would vote for. */
  lemma SomeoneIsElectable(cl: Cluster, nodes: map<NodeId, Node>, q: set<NodeId>) returns (b: NodeId)
    requires q != {} && q <= nodes.Keys && q <= cl.Keys
    ensures b in q
    ensures forall v, t, room :: v in q && MayVoteFor(nodes[v], b, t) ==>
              VotesFor(Config(v, cl[v]), nodes[v], b, t, nodes[b].log, room)
  {
    b := SomeLogIsBest(nodes, q);
    forall v, t, room | v in q && MayVoteFor(nodes[v], b, t)
      ensures VotesFor(Config(v, cl[v]), nodes[v], b, t, nodes[b].log, room)
    {
      VoteExactly(Config(v, cl[v]), nodes[v], b, t, nodes[b].log, room);
    }
  }

  // ---- office ---------------------------------------------------------------------------------------------

  /** More than half of the nodes. */
  predicate MoreThanHalf(ids: set<NodeId>, q: set<NodeId>) { q <= ids && 2 * |q| > |ids| }

  /** What the core counts as a majority is more than half of the nodes, itself included: neither fewer nor
      more are needed. */
  lemma MajorityIsMoreThanHalf(ids: set<NodeId>, c: Config, q: set<NodeId>)
    requires ConfigOk(ids, c) && q <= ids
    ensures |q| >= c.Majority() <==> MoreThanHalf(ids, q)
    ensures Quorum(ids, q) <==> MoreThanHalf(ids, q)
  {}

  /** A candidate leads once more than half have voted for it, and not before; it then supposes that every
      peer holds all of its log, and knows of none that holds any. */
  lemma WinsExactly(ids: set<NodeId>, c: Config, n: Node, from: NodeId, room: nat)
    requires ConfigOk(ids, c) && n.role.Candidate? && n.votes <= ids && from in ids
    ensures var n' := Step(c, n, Receive(from, RequestVoteReply(n.term, true)), room).node;
            && n'.votes == n.votes + {from} && n'.term == n.term && n'.log == n.log
            && n'.role == (if MoreThanHalf(ids, n.votes + {from}) then Leader else Candidate)
            && (n'.role.Leader? ==> forall p :: p in ids && p != c.self ==>
                  Get(n'.nextIndex, p) == |n.log| + 1 && Get(n'.matchIndex, p) == 0)
  {
    MajorityIsMoreThanHalf(ids, c, n.votes + {from});
  }

  /** A campaign opens a new term with the candidate's own vote and asks every other node, each with the
      candidate's own last index and term; it is won at once only by a cluster of one. */
  lemma CampaignAsksAll(ids: set<NodeId>, c: Config, n: Node, room: nat, v: NodeId)
    requires ConfigOk(ids, c) && !n.role.Leader?
    ensures var o := Step(c, n, TimerFires, room);
            && o.node.term == n.term + 1 && o.node.log == n.log && o.node.votes == {c.self}
            && o.node.vote == Some(c.self)
            && o.node.role == (if ids == {c.self} then Leader else Candidate)
            && (v in ids && v != c.self ==>
                  Send(v, RequestVote(n.term + 1, c.self, |n.log|, LastTerm(n.log))) in o.effects)
  {
    var o := Step(c, n, TimerFires, room);
    var asks := AskAll(RequestVote(n.term + 1, c.self, |n.log|, LastTerm(n.log)), c.peers);
    if v in ids && v != c.self {
      var k :| 0 <= k < |c.peers| && c.peers[k] == v;
      assert o.effects[k + 1] == asks[k];
    }
    OnlyMember(ids, c.self);
    MajorityIsMoreThanHalf(ids, c, {c.self});
  }

  lemma OnlyMember(ids: set<NodeId>, i: NodeId)
    requires i in ids
    ensures |ids| == 1 <==> ids == {i}
  {
    assert ids == {i} + (ids - {i});
  }
}
