/** What an AppendEntries exchange does, told without the loops that do it: which messages a follower takes, what
    its log and commit index are afterwards, what it answers, and what a leader sends. */
module RaftReplication {
  import opened Common
  import opened RaftTypes
  import opened RaftStep
  import opened RaftHistory
  import opened RaftInvariant
  import opened RaftHandlers
  import opened RaftCrash
  import opened RaftCluster
  import opened RaftSafety

  // ---- the follower -----------------------------------------------------------------------------------------

  /** The log after taking entries es at prev: unchanged where it already holds them all, and otherwise cut at
      prev and continued by them. */
  function Taken(log: Log, prev: nat, es: seq<Entry>): Log
    requires prev <= |log|
  {
    if prev + |es| <= |log| && log[prev..prev + |es|] == es then log else log[..prev] + es
  }

  /** The entry-by-entry merge amounts to that, because logs with a common entry agree below it. */
  lemma MergeIsTaken(log: Log, prev: nat, es: seq<Entry>, l: Log)
    requires prev <= |log| && prev + |es| <= |l| && es == l[prev..prev + |es|]
    requires Diverges(log, prev + Present(log, prev, es), prev + |es|, l)
    ensures Merge(log, prev, es) == Taken(log, prev, es)
  {
    var k := Present(log, prev, es);
    assert forall x :: prev <= x < prev + k ==> log[x] == log[..prev + k][x] == l[..prev + k][x] == es[x - prev];
    if k == |es| {
      assert log[prev..prev + |es|] == es;
    } else {
      assert log[prev..prev + k] == es[..k];
      assert log[..prev + k] + es[k..] == log[..prev] + es;
      if prev + |es| <= |log| {
        assert log[prev..prev + |es|][k] == log[prev + k] && es[k] == l[prev + k];
      }
    }
  }

  /** Does the log hold the entry the message builds on? */
  predicate FitsOn(log: Log, ae: Msg)
    requires ae.AppendEntries?
  {
    ae.prevLogIndex <= |log| && TermAt(log, ae.prevLogIndex) == ae.prevLogTerm
  }

  /** What a node becomes when it is sent an AppendEntries of its own term or a later one. */
  ghost predicate Obeys(n: Node, ae: Msg, n': Node)
    requires ae.AppendEntries?
  {
    && n'.role.Follower? && n'.term == ae.term && n'.leaderId == Some(ae.leaderId)
    && if FitsOn(n.log, ae) then
         && n'.log == Taken(n.log, ae.prevLogIndex, ae.entries)
         && n'.commitIndex == (if ae.leaderCommit > n.commitIndex
                               then Min(ae.leaderCommit, ae.prevLogIndex + |ae.entries|) else n.commitIndex)
       else
         n'.log == n.log && n'.commitIndex == n.commitIndex
  }

  /** What it answers: success with the last index the message vouches for, or else where its log ends, or
      else the conflicting term and the first index of that term's run. */
  ghost predicate Answers(n: Node, ae: Msg, r: Msg)
    requires ae.AppendEntries?
  {
    && r.AppendEntriesReply? && r.term == ae.term && (r.success <==> FitsOn(n.log, ae))
    && (r.success ==> r.conflictIndex == ae.prevLogIndex + |ae.entries|)
    && (ae.prevLogIndex > |n.log| ==> r.conflictIndex == |n.log| + 1 && r.conflictTerm == 0)
    && (!r.success && ae.prevLogIndex <= |n.log| ==>
          && r.conflictTerm == TermAt(n.log, ae.prevLogIndex)
          && StartsRun(n.log, r.conflictIndex, ae.prevLogIndex))
  }

  /** Index first is the least from which all terms up to i are the same. */
  ghost predicate StartsRun(log: Log, first: nat, i: nat) {
    && first <= i && (i > 0 ==> first > 0)
    && (forall x :: first <= x <= i ==> TermAt(log, x) == TermAt(log, i))
    && (first > 1 ==> TermAt(log, first - 1) != TermAt(log, i))
  }

  lemma {:induction false} FirstOfRunStarts(log: Log, i: nat)
    ensures StartsRun(log, FirstOfRun(log, i), i)
  {
    if i > 1 && TermAt(log, i - 1) == TermAt(log, i) { FirstOfRunStarts(log, i - 1); }
  }

  lemma TakenFrom(ids: set<NodeId>, h: History, f: Node, p: Packet)
    requires LeaderLogsGrown(h) && LogInv(h, f) && PacketInv(ids, h, p) && p.msg.AppendEntries?
    requires p.msg.term == f.term && FitsOn(f.log, p.msg)
    ensures Merge(f.log, p.msg.prevLogIndex, p.msg.entries) == Taken(f.log, p.msg.prevLogIndex, p.msg.entries)
  {
    MergeGood(ids, h, f, p);
    MergeIsTaken(f.log, p.msg.prevLogIndex, p.msg.entries, h.leaderLog[f.term]);
  }

  lemma AcceptObeys(n: Node, f: Node, from: NodeId, ae: Msg, room: nat)
    requires ae.AppendEntries? && ae.term == f.term && FitsOn(f.log, ae)
    requires Merge(f.log, ae.prevLogIndex, ae.entries) == Taken(f.log, ae.prevLogIndex, ae.entries)
    requires f.role.Follower? && f.leaderId == Some(ae.leaderId) && n.log == f.log && n.commitIndex == f.commitIndex
    ensures Obeys(n, ae, Accept(f, from, ae, room).node)
  {
    var merged := Merge(f.log, ae.prevLogIndex, ae.entries);
    KeptByHandOff(f.(log := merged, commitIndex := Min(ae.leaderCommit, ae.prevLogIndex + |ae.entries|)), room);
  }

  lemma KeptByHandOff(n: Node, room: nat)
    ensures var n' := HandOff(n, room);
            && n'.log == n.log && n'.term == n.term && n'.role == n.role && n'.leaderId == n.leaderId
            && n'.commitIndex == n.commitIndex
  {}

  lemma HandlerObeys(ids: set<NodeId>, h: History, i: NodeId, n: Node, a: Node, p: Packet, room: nat)
    requires LeaderLogsGrown(h) && LogInv(h, a) && PacketInv(ids, h, p) && p.msg.AppendEntries?
    requires a.term == p.msg.term && !a.role.Leader? && n.log == a.log && n.commitIndex == a.commitIndex
    ensures var o := OnAppendEntries(a, p.from, p.msg, room);
            && Obeys(n, p.msg, o.node)
            && o.effects != [] && o.effects[|o.effects| - 1].Send? && o.effects[|o.effects| - 1].to == p.from
            && Answers(n, p.msg, o.effects[|o.effects| - 1].msg)
  {
    var f := a.(leaderId := Some(p.msg.leaderId), role := Follower);
    if FitsOn(f.log, p.msg) {
      TakenFrom(ids, h, f, p);
      AcceptObeys(n, f, p.from, p.msg, room);
    } else if p.msg.prevLogIndex <= |f.log| {
      FirstOfRunStarts(f.log, p.msg.prevLogIndex);
    }
  }

  lemma HandleObeys(ids: set<NodeId>, h: History, c: Config, n: Node, p: Packet, room: nat) returns (r: Msg)
    requires HistInv(ids, h) && NodeInv(ids, h, c.self, n) && PacketInv(ids, h, p) && p.msg.AppendEntries?
    requires n.term <= p.msg.term && !Leads(n, p.msg.term)
    ensures var o := Step(c, n, Receive(p.from, p.msg), room);
            Obeys(n, p.msg, o.node) && Answers(n, p.msg, r) && Packet(c.self, p.from, r) in Sent(c.self, o.effects)
  {
    AdoptInv(ids, h, c.self, n, p.msg.term);
    var a := Adopt(n, p.msg.term);
    HandlerObeys(ids, h, c.self, n, a.node, p, room);
    var es := OnAppendEntries(a.node, p.from, p.msg, room).effects;
    r := es[|es| - 1].msg;
    LastIsSent(c.self, a.effects, es, p.from, r);
  }

  lemma LastIsSent(i: NodeId, before: seq<Effect>, es: seq<Effect>, to: NodeId, m: Msg)
    requires es != [] && es[|es| - 1] == Send(to, m)
    ensures Packet(i, to, m) in Sent(i, before + es)
  {
    assert (before + es)[|before + es| - 1] == Send(to, m);
  }

  /** In every run, a node that is sent an AppendEntries of its own term or a later one follows it and answers
      it accordingly. */
  lemma AppendExactly(cl: Cluster, run: seq<State>, acts: seq<Action>, k: nat) returns (r: Msg)
    requires IsRun(cl, run, acts) && k < |acts| && acts[k].Run? && acts[k].e.Receive? && acts[k].e.msg.AppendEntries?
    requires acts[k].i in run[k].nodes && run[k].nodes[acts[k].i].term <= acts[k].e.msg.term
    ensures acts[k].i in run[k + 1].nodes
    ensures Obeys(run[k].nodes[acts[k].i], acts[k].e.msg, run[k + 1].nodes[acts[k].i])
    ensures Answers(run[k].nodes[acts[k].i], acts[k].e.msg, r)
    ensures Packet(acts[k].i, acts[k].e.from, r) in run[k + 1].msgs
  {
    RanAt(cl, run, acts, k);
    var i, p := acts[k].i, Packet(acts[k].e.from, acts[k].i, acts[k].e.msg);
    var h := InvOf(cl, run, acts, k, i, p);
    if Leads(run[k].nodes[i], p.msg.term) { ViolationBranchesDead(cl, run, acts, k, i, p); }
    r := HandleObeys(cl.Keys, h, Config(i, cl[i]), run[k].nodes[i], p, acts[k].room);
  }

  /** What action k did. */
  lemma RanAt(cl: Cluster, run: seq<State>, acts: seq<Action>, k: nat)
    requires IsRun(cl, run, acts) && k < |acts| && acts[k].Run?
    ensures var i := acts[k].i;
            && i in cl && i in run[k].nodes && ConfigOk(cl.Keys, Config(i, cl[i]))
            && (acts[k].e.Receive? ==> Packet(acts[k].e.from, i, acts[k].e.msg) in run[k].msgs)
            && var o := Step(Config(i, cl[i]), run[k].nodes[i], acts[k].e, acts[k].room);
            run[k + 1] == State(run[k].nodes[i := o.node], run[k].msgs + Sent(i, o.effects))
  {
    assert StepAt(cl, run, acts, k);
    assert ConfigOk(cl.Keys, Config(acts[k].i, cl[acts[k].i]));
  }

  lemma InvOf(cl: Cluster, run: seq<State>, acts: seq<Action>, k: nat, i: NodeId, p: Packet) returns (h: History)
    requires IsRun(cl, run, acts) && k < |run| && i in run[k].nodes && p in run[k].msgs
    ensures HistInv(cl.Keys, h) && NodeInv(cl.Keys, h, i, run[k].nodes[i]) && PacketInv(cl.Keys, h, p)
  {
    var hs := RunInv(cl, run, acts);
    assert InvAt(cl, run, hs, k);
    h := hs[k];
  }

  // ---- the leader ---------------------------------------------------------------------------------------------

  /** Everything node n, as leader i, has for peer p: its whole log from nextIndex on, and its commit index. */
  ghost predicate Window(i: NodeId, n: Node, p: NodeId, m: Msg) {
    && m.AppendEntries? && m.term == n.term && m.leaderId == i && m.leaderCommit == n.commitIndex
    && p in n.nextIndex && n.nextIndex[p] == m.prevLogIndex + 1 && m.prevLogIndex <= |n.log|
    && m.prevLogTerm == TermAt(n.log, m.prevLogIndex) && n.log == n.log[..m.prevLogIndex] + m.entries
  }

  lemma AppendForIsWindow(c: Config, n: Node, p: NodeId)
    requires p in n.nextIndex && 1 <= n.nextIndex[p] <= |n.log| + 1
    ensures Window(c.self, n, p, AppendFor(c, n, p))
  {
    var prev := n.nextIndex[p] - 1;
    assert n.log == n.log[..prev] + n.log[prev..];
    assert EntriesFrom(n.log, prev + 1) == n.log[prev..];
  }

  /** Is this an event after which a leader writes to all its peers? */
  predicate WritesToAll(n: Node, e: Event, n': Node) {
    && n'.role.Leader?
    && (!n.role.Leader? || e.TimerFires? || (e.ClientProposes? && e.commands != []))
  }

  lemma AllWritten(c: Config, n: Node, es: seq<Effect>, before: seq<Effect>, p: NodeId)
    requires es == before + AppendToAll(c, n, c.peers) && p in c.peers
    requires p in n.nextIndex && 1 <= n.nextIndex[p] <= |n.log| + 1
    ensures Send(p, AppendFor(c, n, p)) in es && Window(c.self, n, p, AppendFor(c, n, p))
  {
    var j :| 0 <= j < |c.peers| && c.peers[j] == p;
    assert es[|before| + j] == Send(p, AppendFor(c, n, p));
    AppendForIsWindow(c, n, p);
  }

  lemma StepWrites(c: Config, n: Node, e: Event, room: nat) returns (before: seq<Effect>)
    requires WritesToAll(n, e, Step(c, n, e, room).node)
    ensures var o := Step(c, n, e, room); o.effects == before + AppendToAll(c, o.node, c.peers)
  {
    match e {
      case TimerFires =>
        if n.role.Leader? {
          before := [];
        } else {
          var k := Campaigning(c, n);
          before := [SaveState(k.term, k.vote)]
                    + AskAll(RequestVote(k.term, c.self, |k.log|, LastTerm(k.log)), c.peers);
        }
      case Receive(from, m) =>
        OnlyVotesElect(c, Adopt(n, m.term).node, from, m, room);
        before := Adopt(n, m.term).effects;
      case ClientProposes(commands) =>
        before := [AppendLog(Stamped(n.term, commands))];
      case PumpApply => assert false;
    }
  }

  /** A node that has just won, a leader whose timer fires and a leader that takes commands each write to every
      peer, and each writes all it has. */
  lemma WritesEverything(cl: Cluster, run: seq<State>, acts: seq<Action>, k: nat, p: NodeId) returns (m: Msg)
    requires IsRun(cl, run, acts) && k < |acts| && acts[k].Run? && p in cl && p != acts[k].i
    requires acts[k].i in run[k].nodes && acts[k].i in run[k + 1].nodes
    requires WritesToAll(run[k].nodes[acts[k].i], acts[k].e, run[k + 1].nodes[acts[k].i])
    ensures Packet(acts[k].i, p, m) in run[k + 1].msgs && Window(acts[k].i, run[k + 1].nodes[acts[k].i], p, m)
  {
    var i := acts[k].i;
    RanAt(cl, run, acts, k);
    NextIndexBounds(cl, run, acts, k + 1, i, p);
    var c := Config(i, cl[i]);
    m := AppendFor(c, run[k + 1].nodes[i], p);
    StepWritesTo(c, run[k].nodes[i], acts[k].e, acts[k].room, p);
  }

  lemma NextIndexBounds(cl: Cluster, run: seq<State>, acts: seq<Action>, a: nat, i: NodeId, p: NodeId)
    requires IsRun(cl, run, acts) && a < |run| && i in run[a].nodes && run[a].nodes[i].role.Leader? && p in cl && p != i
    ensures var n := run[a].nodes[i];
            p in n.nextIndex && Get(n.matchIndex, p) < n.nextIndex[p] <= |n.log| + 1
  {
    var hs := RunInv(cl, run, acts);
    assert InvAt(cl, run, hs, a);
    assert NodeInv(cl.Keys, hs[a], i, run[a].nodes[i]);
  }

  lemma StepWritesTo(c: Config, n: Node, e: Event, room: nat, p: NodeId)
    requires WritesToAll(n, e, Step(c, n, e, room).node) && p in c.peers
    requires var n' := Step(c, n, e, room).node; p in n'.nextIndex && 1 <= n'.nextIndex[p] <= |n'.log| + 1
    ensures var o := Step(c, n, e, room);
            && Packet(c.self, p, AppendFor(c, o.node, p)) in Sent(c.self, o.effects)
            && Window(c.self, o.node, p, AppendFor(c, o.node, p))
  {
    var o := Step(c, n, e, room);
    var before := StepWrites(c, n, e, room);
    AllWritten(c, o.node, o.effects, before, p);
    var j :| 0 <= j < |o.effects| && o.effects[j] == Send(p, AppendFor(c, o.node, p));
  }

  /** A reply that moves the window is answered with what lies beyond it: after a rejection always, after an
      acknowledgement as long as the peer lacks something. */
  lemma ReplyWrites(c: Config, n: Node, from: NodeId, r: Msg, room: nat)
    requires r.AppendEntriesReply? && Leads(n, r.term) && from in n.nextIndex
    requires Get(n.matchIndex, from) < n.nextIndex[from] <= |n.log| + 1
    ensures var o := Step(c, n, Receive(from, r), room);
            && Leads(o.node, n.term) && o.node.log == n.log && from in o.node.nextIndex
            && (forall p :: p != from ==> Get(o.node.matchIndex, p) == Get(n.matchIndex, p))
            && if r.success then
                 if Get(n.matchIndex, from) < r.conflictIndex <= |n.log| then
                   && Get(o.node.matchIndex, from) == r.conflictIndex
                   && o.node.nextIndex[from] == r.conflictIndex + 1
                   && (if r.conflictIndex < |n.log|
                       then o.effects == [Send(from, AppendFor(c, o.node, from))]
                         && Window(c.self, o.node, from, AppendFor(c, o.node, from))
                       else o.effects == [])
                 else o == Outcome(n, [])
               else
                 && o.node.matchIndex == n.matchIndex && o.effects == [Send(from, AppendFor(c, o.node, from))]
                 && Window(c.self, o.node, from, AppendFor(c, o.node, from))
  {
    var o := Step(c, n, Receive(from, r), room);
    assert o == OnAppendEntriesReply(c, n, from, r, room);
    if r.success {
      if Get(n.matchIndex, from) < r.conflictIndex <= |n.log| {
        AppendForIsWindow(c, o.node, from);
      }
    } else {
      AppendForIsWindow(c, o.node, from);
    }
  }
}
