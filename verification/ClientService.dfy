/** The node-side client service: admission, batching into proposals, and matching replies to requests
    by log index and embedded identity. */
module ClientService {
  import opened Common
  import opened Wire
  import opened Modular
  import opened Sessions
  import KvStore

  type NodeId = nat

  datatype Request = Request(id: Ident, command: Bytes)

  datatype Reply = NotLeader(hint: NodeId) | Error | Answer(result: Bytes)

  datatype Pending = Pending(replyTo: NodeId, id: Ident)

  /** The identity in a command's first 16 bytes. */
  function Prefix(command: Bytes): Option<Ident> {
    if |command| < 16 then None else Some(Ident(Value(command[..8]), Value(command[8..16])))
  }

  predicate WellAddressed(req: Request) { Prefix(req.command) == Some(req.id) }

  /** The identity used to match replies is the one the store deduplicates on. */
  lemma PrefixIsIdent(command: Bytes)
    requires KvStore.IdentOf(command).Some?
    ensures Prefix(command) == KvStore.IdentOf(command)
  {}

  // ---- the pending table ----------------------------------------------------------------------------

  datatype Slot = Free | Used(index: nat, p: Pending)

  function PutIn(slots: seq<Slot>, index: nat, p: Pending): seq<Slot>
    requires slots != []
  {
    slots[index % |slots| := Used(index, p)]
  }

  function Lookup(slots: seq<Slot>, index: nat): Option<Pending>
    requires slots != []
  {
    var s := slots[index % |slots|];
    if s.Used? && s.index == index then Some(s.p) else None
  }

  /** Consecutive puts, as a batch makes them. */
  function PutAll(slots: seq<Slot>, first: nat, ps: seq<Pending>): (r: seq<Slot>)
    requires slots != []
    ensures |r| == |slots|
  {
    if ps == [] then slots else PutIn(PutAll(slots, first, ps[..|ps| - 1]), first + |ps| - 1, ps[|ps| - 1])
  }

  /** Within a window of one table size no live request displaces another. */
  lemma {:induction false} PutAllKeeps(slots: seq<Slot>, first: nat, ps: seq<Pending>, k: nat)
    requires slots != [] && k < |ps| <= |slots|
    ensures Lookup(PutAll(slots, first, ps), first + k) == Some(ps[k])
    decreases |ps|
  {
    var n := |ps| - 1;
    if k < n {
      PutAllKeeps(slots, first, ps[..n], k);
      CellsDiffer(first + k, first + n, |slots|);
    }
  }

  class PendingTable {
    const slots: array<Slot>

    constructor (capacity: nat)
      requires capacity > 0
      ensures fresh(slots) && slots.Length == capacity && forall i :: 0 <= i < capacity ==> slots[i] == Free
    {
      slots := new Slot[capacity](_ => Free);
    }

    method Put(index: nat, p: Pending)
      requires slots.Length > 0
      modifies slots
      ensures slots[..] == PutIn(old(slots[..]), index, p)
    {
      slots[index % slots.Length] := Used(index, p);
    }

    /** Answers a request at most once. */
    method Take(index: nat) returns (p: Option<Pending>)
      requires slots.Length > 0
      modifies slots
      ensures p == Lookup(old(slots[..]), index)
      ensures slots[..] == if p.Some? then old(slots[..])[index % slots.Length := Free] else old(slots[..])
      ensures Lookup(slots[..], index) == None
    {
      var s := slots[index % slots.Length];
      if s.Used? && s.index == index {
        slots[index % slots.Length] := Free;
        return Some(s.p);
      }
      return None;
    }
  }

  // ---- the service ---------------------------------------------------------------------------------------

  /** A request that waits for its batch. */
  datatype Buffered = Buffered(from: NodeId, req: Request)

  function Waiting(b: seq<Buffered>): (ps: seq<Pending>)
    ensures |ps| == |b| && forall k :: 0 <= k < |b| ==> ps[k] == Pending(b[k].from, b[k].req.id)
  {
    seq(|b|, k requires 0 <= k < |b| => Pending(b[k].from, b[k].req.id))
  }

  function Commands(b: seq<Buffered>): (cs: seq<Bytes>)
    ensures |cs| == |b| && forall k :: 0 <= k < |b| ==> cs[k] == b[k].req.command
  {
    seq(|b|, k requires 0 <= k < |b| => b[k].req.command)
  }

  function Refusals(b: seq<Buffered>, r: Reply): (out: seq<(NodeId, Reply)>)
    ensures |out| == |b| && forall k :: 0 <= k < |b| ==> out[k] == (b[k].from, r)
  {
    seq(|b|, k requires 0 <= k < |b| => (b[k].from, r))
  }

  /** The core as the service sees it: whether it leads, whom it follows, the next free log index. */
  datatype Core = Core(leads: bool, hint: NodeId, next: nat)

  /** What the service holds: the pending table, the commands of the batch under way, and the leader as of
      the latest request, for replies sent where the core must not be touched. */
  datatype Desk = Desk(slots: seq<Slot>, buffer: seq<Buffered>, hint: NodeId)

  /** What one call does: the desk it leaves, the commands it proposes together, the replies it sends. */
  datatype Turn = Turn(desk: Desk, batch: seq<Bytes>, replies: seq<(NodeId, Reply)>)

  function Flush(d: Desk, core: Core): Turn
    requires d.slots != []
  {
    if d.buffer == [] then Turn(d, [], [])
    else if core.leads then
      Turn(d.(slots := PutAll(d.slots, core.next, Waiting(d.buffer)), buffer := []), Commands(d.buffer), [])
    else Turn(d.(buffer := []), [], Refusals(d.buffer, NotLeader(core.hint)))
  }

  function Arrive(desk: Desk, maxBatch: nat, from: NodeId, req: Request, core: Core): Turn
    requires desk.slots != []
  {
    var d := desk.(hint := core.hint);
    if !core.leads then Turn(d, [], [(from, NotLeader(core.hint))])
    else if !WellAddressed(req) then Turn(d, [], [(from, Error)])
    else if maxBatch <= 1 then
      Turn(d.(slots := PutIn(d.slots, core.next, Pending(from, req.id))), [req.command], [])
    else
      var d' := d.(buffer := d.buffer + [Buffered(from, req)]);
      if |d'.buffer| >= maxBatch then Flush(d', core) else Turn(d', [], [])
  }

  /** The entry at `index` was applied: whoever waits for it gets the result if the entry is theirs, and a
      redirect if another leader's entry took the index. */
  function Settle(d: Desk, index: nat, command: Bytes, result: Bytes): Turn
    requires d.slots != []
  {
    match Lookup(d.slots, index)
    case None => Turn(d, [], [])
    case Some(p) =>
      Turn(d.(slots := d.slots[index % |d.slots| := Free]), [],
           [(p.replyTo, if Prefix(command) == Some(p.id) then Answer(result) else NotLeader(d.hint))])
  }

  // ---- arrival order ---------------------------------------------------------------------------------------

  /** Commands that left the buffer together: taken by the core as one proposal, or turned away. */
  datatype Batch = Batch(commands: seq<Bytes>, taken: bool)

  function Flat(batches: seq<Batch>): seq<Bytes> {
    if batches == [] then [] else Flat(batches[..|batches| - 1]) + batches[|batches| - 1].commands
  }

  function Taken(batches: seq<Batch>): seq<seq<Bytes>> {
    if batches == [] then []
    else
      var b := batches[|batches| - 1];
      Taken(batches[..|batches| - 1]) + if b.taken then [b.commands] else []
  }

  lemma BatchSnoc(batches: seq<Batch>, b: Batch)
    ensures Flat(batches + [b]) == Flat(batches) + b.commands
    ensures Taken(batches + [b]) == Taken(batches) + if b.taken then [b.commands] else []
  {
    assert (batches + [b])[..|batches|] == batches;
  }

  lemma TakenAlone(batches: seq<Batch>, buffer: seq<Buffered>, admitted: seq<Bytes>, command: Bytes)
    requires buffer == [] && Flat(batches) + Commands(buffer) == admitted
    ensures Flat(batches + [Batch([command], true)]) + Commands(buffer) == admitted + [command]
    ensures Taken(batches + [Batch([command], true)]) == Taken(batches) + [[command]]
  {
    BatchSnoc(batches, Batch([command], true));
    assert Commands(buffer) == [];
  }

  lemma CommandsSnoc(b: seq<Buffered>, x: Buffered)
    ensures Commands(b + [x]) == Commands(b) + [x.req.command]
  {}

  function Proposal(batch: seq<Bytes>): seq<seq<Bytes>> { if batch == [] then [] else [batch] }

  class ClientService {
    const table: PendingTable
    const maxBatch: nat
    var buffer: seq<Buffered>
    var leaderHint: NodeId
    var proposed: seq<seq<Bytes>>  // batches given to the core, in order
    var sent: seq<(NodeId, Reply)>
    ghost var admitted: seq<Bytes>  // commands accepted while leading, in arrival order
    ghost var batches: seq<Batch>   // what became of them

    /** Whatever was admitted left in arrival order, in batches of which the core got exactly those
        proposed while it led; the rest is buffered. */
    ghost predicate Ordered()
      reads this
    {
      table.slots.Length > 0 && Flat(batches) + Commands(buffer) == admitted && proposed == Taken(batches)
    }

    ghost predicate Valid()
      reads this
    {
      && Ordered()
      && (maxBatch > 1 ==> |buffer| < maxBatch) && (maxBatch <= 1 ==> buffer == [])
    }

    ghost function View(): Desk
      reads this, table.slots
    {
      Desk(table.slots[..], buffer, leaderHint)
    }

    constructor (table: PendingTable, maxBatch: nat)
      requires table.slots.Length > 0
      ensures Valid() && this.table == table && this.maxBatch == maxBatch
      ensures buffer == [] && leaderHint == 0 && proposed == [] && sent == [] && admitted == [] && batches == []
    {
      this.table, this.maxBatch, leaderHint := table, maxBatch, 0;
      buffer, proposed, sent, admitted, batches := [], [], [], [], [];
    }

    /** Hand the buffer to the core as one proposal, with consecutive indices in arrival order, or turn it
        away. */
    method FlushBatch(core: Core)
      requires Ordered()
      modifies this, table.slots
      ensures Valid()
      ensures var t := Flush(old(View()), core);
              View() == t.desk && proposed == old(proposed) + Proposal(t.batch) && sent == old(sent) + t.replies
      ensures admitted == old(admitted)
      ensures batches == old(batches) + if old(buffer) == [] then [] else [Batch(Commands(old(buffer)), core.leads)]
    {
      if buffer == [] { return; }
      ghost var batch := Batch(Commands(buffer), core.leads);
      BatchSnoc(batches, batch);
      batches := batches + [batch];
      if core.leads {
        proposed := proposed + [Commands(buffer)];
        Register(core.next);
      } else {
        sent := sent + Refusals(buffer, NotLeader(core.hint));
      }
      buffer := [];
    }

    /** Every buffered request waits for its index. */
    method Register(first: nat)
      requires table.slots.Length > 0
      modifies table.slots
      ensures table.slots[..] == PutAll(old(table.slots[..]), first, Waiting(buffer))
    {
      ghost var ps := Waiting(buffer);
      for i := 0 to |buffer|
        invariant table.slots[..] == PutAll(old(table.slots[..]), first, ps[..i])
      {
        assert ps[..i + 1][..i] == ps[..i];
        table.Put(first + i, Pending(buffer[i].from, buffer[i].req.id));
      }
      assert ps[..|buffer|] == ps;
    }

    /** A request arrives: redirect, reject, or take it in. */
    method OnClientRequest(from: NodeId, req: Request, core: Core)
      requires Valid()
      modifies this, table.slots
      ensures Valid()
      ensures var t := Arrive(old(View()), maxBatch, from, req, core);
              View() == t.desk && proposed == old(proposed) + Proposal(t.batch) && sent == old(sent) + t.replies
      ensures admitted == old(admitted) + if core.leads && WellAddressed(req) then [req.command] else []
      ensures old(batches) <= batches
    {
      leaderHint := core.hint;
      if !core.leads {
        sent := sent + [(from, NotLeader(core.hint))];
        return;
      }
      if Prefix(req.command) != Some(req.id) {
        sent := sent + [(from, Error)];
        return;
      }
      if maxBatch > 1 { Join(from, req, core); } else { ProposeNow(from, req, core); }
    }

    /** The request joins the batch under way, which goes out once it is full. */
    method Join(from: NodeId, req: Request, core: Core)
      requires Valid() && maxBatch > 1 && core.leads && WellAddressed(req) && leaderHint == core.hint
      modifies this, table.slots
      ensures Valid()
      ensures var t := Arrive(old(View()), maxBatch, from, req, core);
              View() == t.desk && proposed == old(proposed) + Proposal(t.batch) && sent == old(sent) + t.replies
      ensures admitted == old(admitted) + [req.command] && old(batches) <= batches
    {
      CommandsSnoc(buffer, Buffered(from, req));
      admitted := admitted + [req.command];
      buffer := buffer + [Buffered(from, req)];
      assert Ordered();
      if |buffer| >= maxBatch { FlushBatch(core); }
    }

    /** Without batching the request is a proposal of its own. */
    method ProposeNow(from: NodeId, req: Request, core: Core)
      requires Valid() && maxBatch <= 1 && core.leads && WellAddressed(req) && leaderHint == core.hint
      modifies this, table.slots
      ensures Valid()
      ensures var t := Arrive(old(View()), maxBatch, from, req, core);
              View() == t.desk && proposed == old(proposed) + Proposal(t.batch) && sent == old(sent) + t.replies
      ensures admitted == old(admitted) + [req.command] && old(batches) <= batches
    {
      TakenAlone(batches, buffer, admitted, req.command);
      batches, admitted := batches + [Batch([req.command], true)], admitted + [req.command];
      proposed := proposed + [[req.command]];
      table.Put(core.next, Pending(from, req.id));
    }

    /** An entry was applied here. */
    method OnApplied(index: nat, command: Bytes, result: Bytes)
      requires Valid()
      modifies this`sent, table.slots
      ensures Valid() && Lookup(table.slots[..], index) == None
      ensures var t := Settle(old(View()), index, command, result);
              View() == t.desk && sent == old(sent) + t.replies
    {
      var p := table.Take(index);
      if p.None? { return; }
      if Prefix(command) == Some(p.value.id) {
        sent := sent + [(p.value.replyTo, Answer(result))];
      } else {
        sent := sent + [(p.value.replyTo, NotLeader(leaderHint))];
      }
    }
  }
}
