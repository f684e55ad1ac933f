/** Crashes. A handler's durable writes all come before its first message, so a crash at any
    point leaves a disk that is one of a few intermediate images; each keeps the invariant. */
module RaftCrash {
  import opened Common
  import opened RaftTypes
  import opened RaftStep
  import opened RaftHistory
  import opened RaftHistorySteps
  import opened RaftInvariant
  import opened RaftHandlers

  /** What survives a crash. */
  datatype Disk = Disk(term: Term, vote: Option<NodeId>, log: Log)

  function DiskOf(n: Node): Disk { Disk(n.term, n.vote, n.log) }

  function BootFrom(d: Disk): Node { Boot(d.term, d.vote, d.log) }

  function Written(d: Disk, e: Effect): Disk {
    match e
    case SaveState(t, v) => d.(term := t, vote := v)
    case TruncateLog(i) => d.(log := TruncatedFrom(d.log, i))
    case AppendLog(es) => d.(log := d.log + es)
    case Send(_, _) => d
  }

  function WrittenAll(d: Disk, es: seq<Effect>): Disk
    decreases |es|
  {
    if es == [] then d else WrittenAll(Written(d, es[0]), es[1..])
  }

  /** The disk after a crash that lets k effects through and, if the next one is an append,
      keeps its first j entries. */
  function CrashDisk(d: Disk, es: seq<Effect>, k: nat, j: nat): Disk
    requires k <= |es|
  {
    var w := WrittenAll(d, es[..k]);
    if k < |es| && es[k].AppendLog? then w.(log := w.log + es[k].entries[..Min(j, |es[k].entries|)]) else w
  }

  ghost predicate AllSends(es: seq<Effect>) { forall k :: 0 <= k < |es| ==> es[k].Send? }

  ghost predicate NoSends(es: seq<Effect>) { forall k :: 0 <= k < |es| ==> !es[k].Send? }

  lemma {:induction false} SendsWriteNothing(d: Disk, es: seq<Effect>)
    requires AllSends(es)
    ensures WrittenAll(d, es) == d
  {
    if es != [] { SendsWriteNothing(d, es[1..]); }
  }

  lemma {:induction false} WrittenConcat(d: Disk, a: seq<Effect>, b: seq<Effect>)
    ensures WrittenAll(d, a + b) == WrittenAll(WrittenAll(d, a), b)
    decreases |a|
  {
    if a == [] {
      assert a + b == b;
    } else {
      assert (a + b)[1..] == a[1..] + b;
      WrittenConcat(Written(d, a[0]), a[1..], b);
    }
  }

  lemma WrittenOne(d: Disk, e: Effect)
    ensures WrittenAll(d, [e]) == Written(d, e)
  {
    assert [e][1..] == [];
  }

  lemma WrittenTwo(d: Disk, e: Effect, f: Effect)
    ensures WrittenAll(d, [e, f]) == Written(Written(d, e), f)
  {
    assert [e, f][1..] == [f];
    WrittenOne(Written(d, e), f);
  }

  // ---- persist before send ------------------------------------------------------------

  /** The durable writes of one event, in order. */
  function Writes(c: Config, n: Node, e: Event): (ws: seq<Effect>) {
    match e
    case TimerFires => if n.role.Leader? then [] else [SaveState(n.term + 1, Some(c.self))]
    case Receive(from, m) => Adopt(n, m.term).effects + HandlerWrites(Adopt(n, m.term).node, m)
    case ClientProposes(cs) => if cs == [] || !n.role.Leader? then [] else [AppendLog(Stamped(n.term, cs))]
    case PumpApply => []
  }

  function HandlerWrites(n: Node, m: Msg): (ws: seq<Effect>) {
    if m.RequestVote? && m.term >= n.term && Grants(n, m) then [SaveState(n.term, Some(m.candidateId))]
    else if m.AppendEntries? && Accepts(n, m) then MergeEffects(n.log, m.prevLogIndex, m.entries)
    else []
  }

  predicate Accepts(n: Node, m: Msg)
    requires m.AppendEntries?
  {
    && m.term >= n.term && !n.role.Leader?
    && m.prevLogIndex <= |n.log| && TermAt(n.log, m.prevLogIndex) == m.prevLogTerm
  }

  lemma HandlerPersistsFirst(c: Config, n: Node, from: NodeId, m: Msg, room: nat) returns (rest: seq<Effect>)
    ensures OnMessage(c, n, from, m, room).effects == HandlerWrites(n, m) + rest && AllSends(rest)
    ensures WrittenAll(DiskOf(n), HandlerWrites(n, m)) == DiskOf(OnMessage(c, n, from, m, room).node)
  {
    var o, ws := OnMessage(c, n, from, m, room), HandlerWrites(n, m);
    rest := o.effects[|ws|..];
    match m {
      case AppendEntries(_, _, _, _, _, _) => AppendPersistsFirst(n, from, m, room);
      case RequestVote(_, _, _, _) =>
        if ws != [] { WrittenOne(DiskOf(n), ws[0]); }
      case RequestVoteReply(_, _) =>
      case AppendEntriesReply(_, _, _, _) =>
    }
  }

  lemma AppendPersistsFirst(n: Node, from: NodeId, m: Msg, room: nat)
    requires m.AppendEntries?
    ensures var o, ws := OnAppendEntries(n, from, m, room), HandlerWrites(n, m);
            && |ws| <= |o.effects| && o.effects[..|ws|] == ws && AllSends(o.effects[|ws|..])
            && WrittenAll(DiskOf(n), ws) == DiskOf(o.node)
  {
    if Accepts(n, m) {
      MergeWrites(DiskOf(n), m.prevLogIndex, m.entries);
    }
  }

  lemma {:induction false} MergeWrites(d: Disk, prev: nat, es: seq<Entry>)
    requires prev <= |d.log|
    ensures WrittenAll(d, MergeEffects(d.log, prev, es)) == d.(log := Merge(d.log, prev, es))
  {
    var k := Present(d.log, prev, es);
    if k < |es| {
      if prev + k < |d.log| {
        var t, a := TruncateLog(prev + k + 1), AppendLog(es[k..]);
        assert MergeEffects(d.log, prev, es) == [t] + [a] == [t, a];
        WrittenTwo(d, t, a);
      } else {
        assert MergeEffects(d.log, prev, es) == [AppendLog(es[k..])];
        WrittenOne(d, AppendLog(es[k..]));
        assert d.log[..prev + k] == d.log;
      }
    }
  }

  /** Every event's effects are its durable writes followed by sends only, and after the writes
      the disk is the new node's durable part. */
  lemma PersistsBeforeSend(c: Config, n: Node, e: Event, room: nat) returns (rest: seq<Effect>)
    ensures Step(c, n, e, room).effects == Writes(c, n, e) + rest && AllSends(rest)
    ensures WrittenAll(DiskOf(n), Writes(c, n, e)) == DiskOf(Step(c, n, e, room).node)
  {
    if e.Receive? {
      rest := MessagePersistsFirst(c, n, e.from, e.msg, room);
    } else {
      rest := LocalPersistsFirst(c, n, e, room);
    }
  }

  lemma MessagePersistsFirst(c: Config, n: Node, from: NodeId, m: Msg, room: nat) returns (rest: seq<Effect>)
    ensures Handle(c, n, from, m, room).effects == Writes(c, n, Receive(from, m)) + rest && AllSends(rest)
    ensures WrittenAll(DiskOf(n), Writes(c, n, Receive(from, m))) == DiskOf(Handle(c, n, from, m, room).node)
  {
    var a := Adopt(n, m.term);
    rest := HandlerPersistsFirst(c, a.node, from, m, room);
    Associate(a.effects, HandlerWrites(a.node, m), rest);
    WrittenConcat(DiskOf(n), a.effects, HandlerWrites(a.node, m));
    if a.effects != [] { WrittenOne(DiskOf(n), a.effects[0]); }
  }

  lemma Associate(a: seq<Effect>, b: seq<Effect>, c: seq<Effect>)
    ensures a + (b + c) == (a + b) + c
  {}

  lemma LocalPersistsFirst(c: Config, n: Node, e: Event, room: nat) returns (rest: seq<Effect>)
    requires !e.Receive?
    ensures Step(c, n, e, room).effects == Writes(c, n, e) + rest && AllSends(rest)
    ensures WrittenAll(DiskOf(n), Writes(c, n, e)) == DiskOf(Step(c, n, e, room).node)
  {
    rest := Step(c, n, e, room).effects[|Writes(c, n, e)|..];
    match e
    case TimerFires => TickPersists(c, n);
    case ClientProposes(cs) => ProposePersists(c, n, cs, room);
    case PumpApply =>
  }

  lemma TickPersists(c: Config, n: Node)
    ensures var o, ws := Tick(c, n), Writes(c, n, TimerFires);
            && |ws| <= |o.effects| && o.effects[..|ws|] == ws && AllSends(o.effects[|ws|..])
            && WrittenAll(DiskOf(n), ws) == DiskOf(o.node)
  {
    if !n.role.Leader? { WrittenOne(DiskOf(n), SaveState(n.term + 1, Some(c.self))); }
  }

  lemma ProposePersists(c: Config, n: Node, cs: seq<Command>, room: nat)
    ensures var o, ws := Propose(c, n, cs, room), Writes(c, n, ClientProposes(cs));
            && |ws| <= |o.effects| && o.effects[..|ws|] == ws && AllSends(o.effects[|ws|..])
            && WrittenAll(DiskOf(n), ws) == DiskOf(o.node)
  {
    if cs != [] && n.role.Leader? { WrittenOne(DiskOf(n), AppendLog(Stamped(n.term, cs))); }
  }

  lemma NoSendsInWrites(c: Config, n: Node, e: Event)
    ensures NoSends(Writes(c, n, e))
  {}

  // ---- crash images ---------------------------------------------------------------------

  ghost predicate CrashSafe(ids: set<NodeId>, h: History, h': History, i: NodeId, d: Disk) {
    HistInv(ids, h') && ExtendsBy(h, h', i) && NodeInv(ids, h', i, BootFrom(d))
  }

  lemma WholeDiskSafe(ids: set<NodeId>, h: History, i: NodeId, n: Node)
    requires HistInv(ids, h) && NodeInv(ids, h, i, n)
    ensures CrashSafe(ids, h, h, i, DiskOf(n))
  {
    RestartInv(ids, h, i, n);
    ExtendsRefl(h, i);
  }

  /** A crash before the first write is complete. */
  lemma FirstWriteSafe(ids: set<NodeId>, c: Config, h: History, n: Node, e: Event, j: nat) returns (h': History)
    requires Ready(ids, c, h, n) && Delivered(ids, h, c, e) && !e.Receive?
    requires Writes(c, n, e) != []
    ensures CrashSafe(ids, h, h', c.self, CrashDisk(DiskOf(n), Writes(c, n, e), 0, j))
  {
    if e.ClientProposes? {
      var es := Stamped(n.term, e.commands);
      var part := es[..Min(j, |es|)];
      h' := LeaderAppendInv(ids, c, h, n, part);
      RestartInv(ids, h', c.self, n.(log := n.log + part));
    } else {
      h' := h;
      WholeDiskSafe(ids, h, c.self, n);
    }
  }

  /** A crash inside the writes of a message handler, the term rule already done. */
  lemma HandlerCrashSafe(ids: set<NodeId>, c: Config, h: History, n: Node, from: NodeId, m: Msg, k: nat, j: nat)
    requires Ready(ids, c, h, n) && m.term <= n.term && PacketInv(ids, h, Packet(from, c.self, m))
    requires k < |HandlerWrites(n, m)|
    ensures CrashSafe(ids, h, h, c.self, CrashDisk(DiskOf(n), HandlerWrites(n, m), k, j))
  {
    if m.AppendEntries? && Accepts(n, m) {
      FollowerInv(ids, h, c.self, n, m.leaderId);
      MergeCrashSafe(ids, c, h, n.(leaderId := Some(m.leaderId), role := Follower), from, m, k, j);
    } else {
      WholeDiskSafe(ids, h, c.self, n);
    }
  }

  lemma MergeCrashSafe(ids: set<NodeId>, c: Config, h: History, f: Node, from: NodeId, m: Msg, k: nat, j: nat)
    requires Ready(ids, c, h, f) && m.AppendEntries? && m.term == f.term && f.role.Follower?
    requires PacketInv(ids, h, Packet(from, c.self, m)) && Accepts(f, m)
    requires k < |MergeEffects(f.log, m.prevLogIndex, m.entries)|
    ensures CrashSafe(ids, h, h, c.self, CrashDisk(DiskOf(f), MergeEffects(f.log, m.prevLogIndex, m.entries), k, j))
  {
    var prev, es := m.prevLogIndex, m.entries;
    if MergeEffects(f.log, prev, es)[k].TruncateLog? {
      WholeDiskSafe(ids, h, c.self, f);
    } else {
      MergeImage(f, prev, es, k, j);
      TornMergeSafe(ids, c, h, f, from, m, Min(j, |es| - Present(f.log, prev, es)));
    }
  }

  /** Truncated, with the first `part` missing entries appended. */
  function Torn(f: Node, prev: nat, es: seq<Entry>, part: nat): Log
    requires prev <= |f.log| && part <= |es| - Present(f.log, prev, es)
  {
    var p := Present(f.log, prev, es);
    f.log[..prev + p] + es[p..][..part]
  }

  lemma {:induction false} TornMergeSafe(ids: set<NodeId>, c: Config, h: History, f: Node, from: NodeId, m: Msg,
                                         part: nat)
    requires Ready(ids, c, h, f) && m.AppendEntries? && m.term == f.term && f.role.Follower?
    requires PacketInv(ids, h, Packet(from, c.self, m)) && Accepts(f, m)
    requires Present(f.log, m.prevLogIndex, m.entries) + part <= |m.entries|
    requires Present(f.log, m.prevLogIndex, m.entries) < |m.entries|
    ensures CrashSafe(ids, h, h, c.self, DiskOf(f.(log := Torn(f, m.prevLogIndex, m.entries, part))))
  {
    TornFollows(ids, h, f, Packet(from, c.self, m), part);
    var log' := Torn(f, m.prevLogIndex, m.entries, part);
    FollowInv(ids, h, c.self, f, log');
    WholeDiskSafe(ids, h, c.self, f.(log := log'));
  }

  lemma {:induction false} TornFollows(ids: set<NodeId>, h: History, f: Node, p: Packet, part: nat)
    requires LeaderLogsGrown(h) && LogInv(h, f) && PacketInv(ids, h, p) && p.msg.AppendEntries? && p.msg.term == f.term
    requires p.msg.prevLogIndex <= |f.log| && TermAt(f.log, p.msg.prevLogIndex) == p.msg.prevLogTerm
    requires Present(f.log, p.msg.prevLogIndex, p.msg.entries) + part <= |p.msg.entries|
    requires Present(f.log, p.msg.prevLogIndex, p.msg.entries) < |p.msg.entries|
    ensures Follows(f.log, h.leaderLog[f.term], Torn(f, p.msg.prevLogIndex, p.msg.entries, part))
  {
    MergeGood(ids, h, f, p);
    MergeFollows(f.log, p.msg.prevLogIndex, p.msg.entries, h.leaderLog[f.term], part);
  }

  lemma MergeImage(f: Node, prev: nat, es: seq<Entry>, k: nat, j: nat)
    requires prev <= |f.log| && k < |MergeEffects(f.log, prev, es)| && MergeEffects(f.log, prev, es)[k].AppendLog?
    ensures Present(f.log, prev, es) < |es|
    ensures CrashDisk(DiskOf(f), MergeEffects(f.log, prev, es), k, j)
              == DiskOf(f.(log := Torn(f, prev, es, Min(j, |es| - Present(f.log, prev, es)))))
  {
    var ws, p := MergeEffects(f.log, prev, es), Present(f.log, prev, es);
    if prev + p < |f.log| {
      assert ws == [TruncateLog(prev + p + 1)] + [AppendLog(es[p..])];
      assert k == 1 && ws[..1] == [TruncateLog(prev + p + 1)];
      WrittenOne(DiskOf(f), TruncateLog(prev + p + 1));
    } else {
      assert k == 0 && ws[..0] == [];
      assert f.log[..prev + p] == f.log;
    }
  }

  lemma ReceiveCrashSafe(ids: set<NodeId>, c: Config, h: History, n: Node, from: NodeId, m: Msg, k: nat, j: nat)
    requires Ready(ids, c, h, n) && PacketInv(ids, h, Packet(from, c.self, m))
    requires k < |Writes(c, n, Receive(from, m))|
    ensures CrashSafe(ids, h, h, c.self, CrashDisk(DiskOf(n), Writes(c, n, Receive(from, m)), k, j))
  {
    var a := Adopt(n, m.term);
    if k < |a.effects| {
      assert (a.effects + HandlerWrites(a.node, m))[..k] == [] && !a.effects[k].AppendLog?;
      WholeDiskSafe(ids, h, c.self, n);
    } else {
      AdoptInv(ids, h, c.self, n, m.term);
      CrashAfterAdopt(n, m, k, j);
      HandlerCrashSafe(ids, c, h, a.node, from, m, k - |a.effects|, j);
    }
  }

  /** A crash after the term was saved is a crash of the node that has it. */
  lemma CrashAfterAdopt(n: Node, m: Msg, k: nat, j: nat)
    requires var a := Adopt(n, m.term); |a.effects| <= k < |a.effects + HandlerWrites(a.node, m)|
    ensures var a := Adopt(n, m.term);
            CrashDisk(DiskOf(n), a.effects + HandlerWrites(a.node, m), k, j)
            == CrashDisk(DiskOf(a.node), HandlerWrites(a.node, m), k - |a.effects|, j)
  {
    var a := Adopt(n, m.term);
    var hw, k' := HandlerWrites(a.node, m), k - |a.effects|;
    assert (a.effects + hw)[..k] == a.effects + hw[..k'] && (a.effects + hw)[k] == hw[k'];
    WrittenConcat(DiskOf(n), a.effects, hw[..k']);
    if a.effects != [] { WrittenOne(DiskOf(n), a.effects[0]); }
  }

  /** Wherever a crash interrupts an event, the restarted node keeps the invariant and every
      message that got out is justified. */
  lemma CrashInv(ids: set<NodeId>, c: Config, h: History, n: Node, e: Event, room: nat, k: nat, j: nat)
    returns (h': History)
    requires Ready(ids, c, h, n) && Delivered(ids, h, c, e) && k <= |Step(c, n, e, room).effects|
    ensures CrashSafe(ids, h, h', c.self, CrashDisk(DiskOf(n), Step(c, n, e, room).effects, k, j))
    ensures SendsOk(ids, h', c.self, Step(c, n, e, room).effects[..k])
  {
    var rest := PersistsBeforeSend(c, n, e, room);
    if k < |Writes(c, n, e)| {
      h' := EarlyCrash(ids, c, h, n, e, k, j);
      SameStart(DiskOf(n), Writes(c, n, e), rest, k, j);
    } else {
      LateCrashDisk(DiskOf(n), Writes(c, n, e), rest, k, j);
      h' := LateCrash(ids, c, h, n, e, room, k);
    }
  }

  lemma SameStart(d: Disk, ws: seq<Effect>, rest: seq<Effect>, k: nat, j: nat)
    requires k < |ws|
    ensures (ws + rest)[..k] == ws[..k] && CrashDisk(d, ws + rest, k, j) == CrashDisk(d, ws, k, j)
  {
    assert (ws + rest)[..k] == ws[..k] && (ws + rest)[k] == ws[k];
  }

  /** In the middle of the writes nothing has been sent. */
  lemma EarlyCrash(ids: set<NodeId>, c: Config, h: History, n: Node, e: Event, k: nat, j: nat) returns (h': History)
    requires Ready(ids, c, h, n) && Delivered(ids, h, c, e) && k < |Writes(c, n, e)|
    ensures CrashSafe(ids, h, h', c.self, CrashDisk(DiskOf(n), Writes(c, n, e), k, j))
    ensures SendsOk(ids, h', c.self, Writes(c, n, e)[..k])
  {
    NoSendsInWrites(c, n, e);
    if e.Receive? {
      h' := h;
      ReceiveCrashSafe(ids, c, h, n, e.from, e.msg, k, j);
    } else {
      h' := FirstWriteSafe(ids, c, h, n, e, j);
    }
  }

  /** After the writes the disk is that of the finished event, whatever has been sent. */
  lemma LateCrash(ids: set<NodeId>, c: Config, h: History, n: Node, e: Event, room: nat, k: nat) returns (h': History)
    requires Ready(ids, c, h, n) && Delivered(ids, h, c, e) && k <= |Step(c, n, e, room).effects|
    ensures CrashSafe(ids, h, h', c.self, DiskOf(Step(c, n, e, room).node))
    ensures SendsOk(ids, h', c.self, Step(c, n, e, room).effects[..k])
  {
    h' := StepInv(ids, c, h, n, e, room);
    RestartInv(ids, h', c.self, Step(c, n, e, room).node);
  }

  lemma LateCrashDisk(d: Disk, ws: seq<Effect>, rest: seq<Effect>, k: nat, j: nat)
    requires AllSends(rest) && |ws| <= k <= |ws + rest|
    ensures CrashDisk(d, ws + rest, k, j) == WrittenAll(d, ws)
  {
    assert (ws + rest)[..k] == ws + rest[..k - |ws|];
    assert k < |ws + rest| ==> (ws + rest)[k] == rest[k - |ws|];
    WrittenConcat(d, ws, rest[..k - |ws|]);
    SendsWriteNothing(WrittenAll(d, ws), rest[..k - |ws|]);
  }
}
