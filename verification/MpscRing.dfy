/** The multi-producer single-consumer ring as a transition system: every atomic load, store and
    compare-exchange is a step of its own, and any number of producers interleave with the consumer.
    Positions are unbounded naturals and memory is sequentially consistent. */
module MpscRing {
  import opened Modular

  /** Where a producer stands inside tryPush. */
  datatype Producer<T> =
    | Idle
    | Begin(v: T)                      // about to load enqueuePos
    | AtPos(v: T, pos: nat)            // about to load the cell's sequence number
    | Seen(v: T, pos: nat, seen: nat)  // about to act on what it loaded
    | Claimed(v: T, pos: nat)          // owns pos, about to write the value
    | Written(pos: nat)                // about to publish

  /** Where the consumer stands inside tryPop. */
  datatype Consumer = Waiting | Reading | Took

  /** The shared ring and all threads. `claimed` records the value of each position as it is won and
      `delivered` what the consumer got: they are observed, never read by the algorithm. */
  datatype Ring<T> = Ring(
    cap: nat, seqs: seq<nat>, vals: seq<T>, enq: nat, dq: nat,
    producers: map<nat, Producer<T>>, consumer: Consumer,
    claimed: seq<T>, delivered: seq<T>)

  datatype Action<T> =
    | Call(i: nat, arg: T)
    | LoadPos(i: nat)
    | LoadSeq(i: nat)
    | Exchange(i: nat, spurious: bool)
    | GiveUp(i: nat)
    | Chase(i: nat)
    | Write(i: nat)
    | Publish(i: nat)
    | Poll
    | Take(leftover: T)
    | Recycle

  ghost predicate Init<T>(s: Ring<T>) {
    && s.cap >= 2 && |s.seqs| == |s.vals| == s.cap
    && (forall x :: 0 <= x < s.cap ==> s.seqs[x] == x)
    && s.enq == 0 && s.dq == 0 && s.consumer == Waiting && s.claimed == [] && s.delivered == []
    && (forall i :: i in s.producers ==> s.producers[i].Idle?)
  }

  function Moved<T>(s: Ring<T>, i: nat, p: Producer<T>): Ring<T> { s.(producers := s.producers[i := p]) }

  ghost predicate Shaped<T>(s: Ring<T>) { s.cap >= 2 && |s.seqs| == |s.vals| == s.cap }

  predicate Ready<T>(s: Ring<T>, a: Action<T>) {
    match a
    case Call(i, _) => i in s.producers && s.producers[i].Idle?
    case LoadPos(i) => i in s.producers && s.producers[i].Begin?
    case LoadSeq(i) => i in s.producers && s.producers[i].AtPos?
    case Exchange(i, _) => i in s.producers && s.producers[i].Seen? && s.producers[i].seen == s.producers[i].pos
    case GiveUp(i) => i in s.producers && s.producers[i].Seen? && s.producers[i].seen < s.producers[i].pos
    case Chase(i) => i in s.producers && s.producers[i].Seen? && s.producers[i].seen > s.producers[i].pos
    case Write(i) => i in s.producers && s.producers[i].Claimed?
    case Publish(i) => i in s.producers && s.producers[i].Written?
    case Poll => s.consumer.Waiting?
    case Take(_) => s.consumer.Reading?
    case Recycle => s.consumer.Took?
  }

  /** One atomic step of one thread. The consumer's own position is private to it, so its increment
      is part of the recycling store; a compare-exchange may also fail spuriously. */
  ghost function Step<T>(s: Ring<T>, a: Action<T>): Ring<T>
    requires Shaped(s) && Ready(s, a)
  {
    match a
    case Call(i, arg) => Moved(s, i, Begin(arg))
    case LoadPos(i) => Moved(s, i, AtPos(s.producers[i].v, s.enq))
    case LoadSeq(i) =>
      var p := s.producers[i];
      Moved(s, i, Seen(p.v, p.pos, s.seqs[p.pos % s.cap]))
    case Exchange(i, spurious) =>
      var p := s.producers[i];
      if s.enq == p.pos && !spurious
      then Moved(s, i, Claimed(p.v, p.pos)).(enq := p.pos + 1, claimed := s.claimed + [p.v])
      else Moved(s, i, AtPos(p.v, s.enq))
    case GiveUp(i) => Moved(s, i, Idle)
    case Chase(i) => Moved(s, i, AtPos(s.producers[i].v, s.enq))
    case Write(i) =>
      var p := s.producers[i];
      Moved(s, i, Written(p.pos)).(vals := s.vals[p.pos % s.cap := p.v])
    case Publish(i) =>
      var p := s.producers[i];
      Moved(s, i, Idle).(seqs := s.seqs[p.pos % s.cap := p.pos + 1])
    case Poll =>
      if s.seqs[s.dq % s.cap] == s.dq + 1 then s.(consumer := Reading) else s
    case Take(leftover) =>
      s.(consumer := Took, delivered := s.delivered + [s.vals[s.dq % s.cap]],
         vals := s.vals[s.dq % s.cap := leftover])
    case Recycle =>
      s.(consumer := Waiting, seqs := s.seqs[s.dq % s.cap := s.dq + s.cap], dq := s.dq + 1)
  }

  // ---- the invariant ------------------------------------------------------------------------------------

  predicate Owns<T>(p: Producer<T>, pos: nat) { (p.Claimed? || p.Written?) && p.pos == pos }

  ghost predicate Owned<T>(s: Ring<T>, pos: nat) { exists i :: i in s.producers && Owns(s.producers[i], pos) }

  /** The cell of position pos, dq <= pos < dq + cap. */
  ghost predicate CellOk<T>(s: Ring<T>, pos: nat)
    requires Shaped(s) && |s.claimed| == s.enq
  {
    var q := s.seqs[pos % s.cap];
    if s.enq <= pos then q == pos
    else
      || (q == pos && Owned(s, pos) && (pos == s.dq ==> s.consumer.Waiting?))
      || (q == pos + 1 && (s.vals[pos % s.cap] == s.claimed[pos] || (pos == s.dq && s.consumer.Took?)))
  }

  /** What a producer knows. */
  ghost predicate ProducerOk<T>(s: Ring<T>, p: Producer<T>)
    requires Shaped(s) && |s.claimed| == s.enq
  {
    match p
    case AtPos(_, pos) => pos <= s.enq
    case Seen(_, pos, seen) => pos <= s.enq && seen <= s.seqs[pos % s.cap]
    case Claimed(v, pos) => s.dq <= pos < s.enq && s.seqs[pos % s.cap] == pos && s.claimed[pos] == v
    case Written(pos) => s.dq <= pos < s.enq && s.seqs[pos % s.cap] == pos && s.vals[pos % s.cap] == s.claimed[pos]
    case _ => true
  }

  ghost predicate ProducersApart<T>(s: Ring<T>) {
    forall i, j, pos {:trigger Owns(s.producers[i], pos), Owns(s.producers[j], pos)} ::
      i in s.producers && j in s.producers && Owns(s.producers[i], pos) && Owns(s.producers[j], pos) ==> i == j
  }

  ghost predicate Inv<T>(s: Ring<T>) {
    && Shaped(s) && |s.claimed| == s.enq && s.dq <= s.enq <= s.dq + s.cap
    && (forall pos {:trigger CellOk(s, pos)} :: s.dq <= pos < s.dq + s.cap ==> CellOk(s, pos))
    && (forall i {:trigger ProducerOk(s, s.producers[i])} :: i in s.producers ==> ProducerOk(s, s.producers[i]))
    && ProducersApart(s)
    && (!s.consumer.Waiting? ==> s.dq < s.enq && s.seqs[s.dq % s.cap] == s.dq + 1)
    && s.delivered == s.claimed[..Popped(s)]
  }

  function Popped<T>(s: Ring<T>): nat
  {
    if s.consumer.Took? && s.dq < |s.claimed| then s.dq + 1 else if s.dq <= |s.claimed| then s.dq else |s.claimed|
  }

  lemma InitInv<T>(s: Ring<T>)
    requires Init(s)
    ensures Inv(s)
  {
    forall pos | 0 <= pos < s.cap ensures CellOk(s, pos) {
      Remainder(s.cap, pos, 0, pos);
    }
  }

  /** A cell's sequence number is at least any position of its cell below the end of the lap. */
  lemma SeqAtLeast<T>(s: Ring<T>, pos: nat)
    requires Inv(s) && pos < s.dq + s.cap
    ensures pos <= s.seqs[pos % s.cap]
  {
    var q := InLap(s.dq, pos, s.cap);
    assert CellOk(s, q);
    if pos >= s.dq {
      if pos < q { CellsDiffer(pos, q, s.cap); } else if q < pos { CellsDiffer(q, pos, s.cap); }
    }
  }

  // ---- every step keeps it --------------------------------------------------------------------------------

  predicate OwnsNone<T>(p: Producer<T>) { !p.Claimed? && !p.Written? }

  /** A producer that owns no position moves on without touching the ring. */
  lemma MovedInv<T>(s: Ring<T>, i: nat, p: Producer<T>)
    requires Inv(s) && i in s.producers && OwnsNone(s.producers[i]) && OwnsNone(p) && ProducerOk(s, p)
    ensures Inv(Moved(s, i, p))
  {
    var s' := Moved(s, i, p);
    forall pos | s'.dq <= pos < s'.dq + s'.cap ensures CellOk(s', pos) {
      assert CellOk(s, pos);
      if Owned(s, pos) { OwnedKept(s, s', i, pos); }
    }
    forall j | j in s'.producers ensures ProducerOk(s', s'.producers[j]) {
      if j != i { assert ProducerOk(s, s.producers[j]); }
    }
  }

  lemma OwnedKept<T>(s: Ring<T>, s': Ring<T>, i: nat, pos: nat)
    requires Owned(s, pos) && i in s.producers && !Owns(s.producers[i], pos)
    requires s'.producers.Keys == s.producers.Keys
    requires forall j :: j in s.producers && j != i ==> s'.producers[j] == s.producers[j]
    ensures Owned(s', pos)
  {
    var j :| j in s.producers && Owns(s.producers[j], pos);
    assert Owns(s'.producers[j], pos);
  }

  /** When the position a producer saw free is still the next one, the ring is not full. */
  lemma FreeStays<T>(s: Ring<T>, i: nat)
    requires Inv(s) && i in s.producers && s.producers[i].Seen?
    requires s.producers[i].seen == s.producers[i].pos == s.enq
    ensures s.enq < s.dq + s.cap
  {
    assert ProducerOk(s, s.producers[i]);
    assert CellOk(s, s.dq);
    NextLap(s.dq, s.cap);
  }

  lemma ClaimCell<T>(s: Ring<T>, i: nat, pos: nat)
    requires Inv(s) && i in s.producers && s.producers[i].Seen? && s.dq <= pos < s.dq + s.cap
    requires s.producers[i].seen == s.producers[i].pos == s.enq < s.dq + s.cap
    ensures CellOk(Step(s, Exchange(i, false)), pos)
  {
    var p, s' := s.producers[i], Step(s, Exchange(i, false));
    assert CellOk(s, p.pos) && CellOk(s, pos);
    if pos == p.pos {
      assert Owns(s'.producers[i], pos);
    } else if Owned(s, pos) {
      OwnedKept(s, s', i, pos);
    }
  }

  lemma ClaimInv<T>(s: Ring<T>, i: nat)
    requires Inv(s) && i in s.producers && s.producers[i].Seen?
    requires s.producers[i].seen == s.producers[i].pos == s.enq
    ensures Inv(Step(s, Exchange(i, false)))
  {
    FreeStays(s, i);
    var s' := Step(s, Exchange(i, false));
    assert CellOk(s, s.enq);
    forall pos | s'.dq <= pos < s'.dq + s'.cap ensures CellOk(s', pos) { ClaimCell(s, i, pos); }
    forall j | j in s'.producers ensures ProducerOk(s', s'.producers[j]) {
      assert ProducerOk(s, s.producers[j]);
    }
    assert forall j :: j in s.producers ==> ProducerOk(s, s.producers[j]);
  }

  lemma OtherCell<T>(s: Ring<T>, p: nat, q: nat)
    requires s.cap > 0 && s.dq <= p < s.dq + s.cap && s.dq <= q < s.dq + s.cap && p != q
    ensures p % s.cap != q % s.cap
  {
    if p < q { CellsDiffer(p, q, s.cap); } else { CellsDiffer(q, p, s.cap); }
  }

  lemma WriteInv<T>(s: Ring<T>, i: nat)
    requires Inv(s) && i in s.producers && s.producers[i].Claimed?
    ensures Inv(Step(s, Write(i)))
  {
    var p := s.producers[i];
    var s' := Step(s, Write(i));
    assert ProducerOk(s, p);
    assert Owns(p, p.pos);
    forall pos | s'.dq <= pos < s'.dq + s'.cap ensures CellOk(s', pos) {
      assert CellOk(s, pos);
      if pos == p.pos {
        assert Owns(s'.producers[i], pos);
      } else {
        OtherCell(s, pos, p.pos);
        if Owned(s, pos) { OwnedKept(s, s', i, pos); }
      }
    }
    forall j | j in s'.producers ensures ProducerOk(s', s'.producers[j]) {
      assert ProducerOk(s, s.producers[j]);
      if j != i && s.producers[j].Written? { ApartCells(s, i, j); }
    }
    forall j, k, pos | j in s'.producers && k in s'.producers && Owns(s'.producers[j], pos)
        && Owns(s'.producers[k], pos)
      ensures j == k
    {
      assert Owns(s.producers[j], pos) && Owns(s.producers[k], pos);
    }
  }

  /** Two owners work on different cells. */
  lemma ApartCells<T>(s: Ring<T>, i: nat, j: nat)
    requires Inv(s) && i in s.producers && j in s.producers && i != j
    requires !OwnsNone(s.producers[i]) && !OwnsNone(s.producers[j])
    ensures s.producers[i].pos != s.producers[j].pos
    ensures s.producers[i].pos % s.cap != s.producers[j].pos % s.cap
  {
    var p, q := s.producers[i], s.producers[j];
    assert ProducerOk(s, p) && ProducerOk(s, q);
    assert Owns(p, p.pos) && Owns(q, q.pos);
    OtherCell(s, p.pos, q.pos);
  }

  lemma PublishInv<T>(s: Ring<T>, i: nat)
    requires Inv(s) && i in s.producers && s.producers[i].Written?
    ensures Inv(Step(s, Publish(i)))
  {
    var p := s.producers[i];
    var s' := Step(s, Publish(i));
    assert ProducerOk(s, p);
    assert Owns(p, p.pos);
    assert CellOk(s, s.dq);
    if p.pos != s.dq { OtherCell(s, s.dq, p.pos); }
    forall pos | s'.dq <= pos < s'.dq + s'.cap ensures CellOk(s', pos) {
      assert CellOk(s, pos);
      if pos != p.pos {
        OtherCell(s, pos, p.pos);
        if Owned(s, pos) { OwnedKept(s, s', i, pos); }
      }
    }
    forall j | j in s'.producers ensures ProducerOk(s', s'.producers[j]) {
      assert ProducerOk(s, s.producers[j]);
      if j != i && !OwnsNone(s.producers[j]) { ApartCells(s, i, j); }
    }
    forall j, k, pos | j in s'.producers && k in s'.producers && Owns(s'.producers[j], pos)
        && Owns(s'.producers[k], pos)
      ensures j == k
    {
      assert Owns(s.producers[j], pos) && Owns(s.producers[k], pos);
    }
  }

  /** Moving the consumer along its states, and the value out of its cell. */
  lemma ConsumerInv<T>(s: Ring<T>, s': Ring<T>)
    requires Inv(s) && s.dq < s.enq && s.seqs[s.dq % s.cap] == s.dq + 1
    requires |s'.vals| == s.cap && s'.claimed == s.claimed && s'.dq == s.dq
    requires forall x :: 0 <= x < s.cap && x != s.dq % s.cap ==> s'.vals[x] == s.vals[x]
    requires s'.consumer.Took? || (s'.consumer.Reading? && s.consumer.Waiting? && s'.vals == s.vals)
    requires s' == s.(vals := s'.vals, consumer := s'.consumer, delivered := s.claimed[..Popped(s')])
    ensures Inv(s')
  {
    assert CellOk(s, s.dq);
    forall pos | s'.dq <= pos < s'.dq + s'.cap ensures CellOk(s', pos) {
      assert CellOk(s, pos);
      if pos != s.dq {
        OtherCell(s, pos, s.dq);
        assert Owned(s, pos) ==> Owned(s', pos);
      }
    }
    forall j | j in s'.producers ensures ProducerOk(s', s'.producers[j]) {
      assert ProducerOk(s, s.producers[j]);
      var p := s.producers[j];
      if p.Written? && p.pos != s.dq { OtherCell(s, p.pos, s.dq); }
    }
  }

  lemma TakeInv<T>(s: Ring<T>, leftover: T)
    requires Inv(s) && s.consumer.Reading?
    ensures Inv(Step(s, Take(leftover)))
  {
    assert CellOk(s, s.dq);
    var s' := Step(s, Take(leftover));
    assert s'.delivered == s.claimed[..s.dq + 1];
    ConsumerInv(s, s');
  }

  lemma RecycleCell<T>(s: Ring<T>, pos: nat)
    requires Inv(s) && s.consumer.Took? && s.dq < pos <= s.dq + s.cap
    ensures CellOk(Step(s, Recycle), pos)
  {
    var s' := Step(s, Recycle);
    if pos == s.dq + s.cap {
      NextLap(s.dq, s.cap);
    } else {
      assert CellOk(s, pos);
      OtherCell(s, pos, s.dq);
      assert Owned(s, pos) ==> Owned(s', pos);
    }
  }

  lemma RecycleInv<T>(s: Ring<T>)
    requires Inv(s) && s.consumer.Took?
    ensures Inv(Step(s, Recycle))
  {
    var s' := Step(s, Recycle);
    assert CellOk(s, s.dq);
    forall pos | s'.dq <= pos < s'.dq + s'.cap ensures CellOk(s', pos) { RecycleCell(s, pos); }
    forall j | j in s'.producers ensures ProducerOk(s', s'.producers[j]) {
      assert ProducerOk(s, s.producers[j]);
      var p := s.producers[j];
      if !OwnsNone(p) { OtherCell(s, p.pos, s.dq); }
    }
  }

  lemma StepInv<T>(s: Ring<T>, a: Action<T>)
    requires Inv(s) && Ready(s, a)
    ensures Inv(Step(s, a))
  {
    match a
    case Call(i, arg) => MovedInv(s, i, Begin(arg));
    case LoadPos(i) => MovedInv(s, i, AtPos(s.producers[i].v, s.enq));
    case LoadSeq(i) =>
      var p := s.producers[i];
      assert ProducerOk(s, p);
      MovedInv(s, i, Seen(p.v, p.pos, s.seqs[p.pos % s.cap]));
    case Exchange(i, spurious) =>
      if s.enq == s.producers[i].pos && !spurious {
        ClaimInv(s, i);
      } else {
        MovedInv(s, i, AtPos(s.producers[i].v, s.enq));
      }
    case GiveUp(i) => MovedInv(s, i, Idle);
    case Chase(i) => MovedInv(s, i, AtPos(s.producers[i].v, s.enq));
    case Write(i) => WriteInv(s, i);
    case Publish(i) => PublishInv(s, i);
    case Poll => PollInv(s);
    case Take(leftover) => TakeInv(s, leftover);
    case Recycle => RecycleInv(s);
  }

  lemma PollInv<T>(s: Ring<T>)
    requires Inv(s) && s.consumer.Waiting?
    ensures Inv(Step(s, Poll))
  {
    assert CellOk(s, s.dq);
    if s.seqs[s.dq % s.cap] == s.dq + 1 { ConsumerInv(s, s.(consumer := Reading)); }
  }

  // ---- runs ------------------------------------------------------------------------------------------------------

  /** A run: states joined by steps of any threads in any order. */
  ghost predicate IsRun<T>(run: seq<Ring<T>>, acts: seq<Action<T>>) {
    && |run| == |acts| + 1 && Init(run[0])
    && forall k {:trigger StepAt(run, acts, k)} :: 0 <= k < |acts| ==> StepAt(run, acts, k)
  }

  ghost predicate StepAt<T>(run: seq<Ring<T>>, acts: seq<Action<T>>, k: nat)
    requires k < |acts| < |run|
  {
    Shaped(run[k]) && Ready(run[k], acts[k]) && run[k + 1] == Step(run[k], acts[k])
  }

  lemma {:induction false} RunInv<T>(run: seq<Ring<T>>, acts: seq<Action<T>>, k: nat)
    requires IsRun(run, acts) && k < |run|
    ensures Inv(run[k])
  {
    if k == 0 {
      InitInv(run[0]);
    } else {
      RunInv(run, acts, k - 1);
      assert StepAt(run, acts, k - 1);
      StepInv(run[k - 1], acts[k - 1]);
    }
  }

  /** The bounded queue the ring stands for: won, not yet handed to the consumer. */
  ghost function Queue<T>(s: Ring<T>): seq<T>
    requires |s.delivered| <= |s.claimed|
  {
    s.claimed[|s.delivered|..]
  }

  /** In every interleaving the consumer gets exactly the values that won positions, in the order they
      won them: nothing lost, doubled, reordered or torn, and never more than the capacity in flight. */
  lemma Fifo<T>(run: seq<Ring<T>>, acts: seq<Action<T>>, k: nat)
    requires IsRun(run, acts) && k < |run|
    ensures run[k].delivered <= run[k].claimed
    ensures |Queue(run[k])| <= run[k].cap
  {
    RunInv(run, acts, k);
  }

  /** Every step is an enqueue at the tail by the producer that wins the position, a dequeue at the
      head, or invisible. */
  lemma StepRefinesQueue<T>(run: seq<Ring<T>>, acts: seq<Action<T>>, k: nat)
    requires IsRun(run, acts) && k < |acts|
    ensures var s, s' := run[k], run[k + 1];
            && |s.delivered| <= |s.claimed| && |s'.delivered| <= |s'.claimed|
            && match acts[k]
               case Exchange(i, spurious) =>
                 i in s.producers && s.producers[i].Seen? &&
                 if s.enq == s.producers[i].pos && !spurious
                 then |Queue(s)| < s.cap && Queue(s') == Queue(s) + [s.producers[i].v]
                 else Queue(s') == Queue(s)
               case Take(_) =>
                 Queue(s) != [] && Queue(s') == Queue(s)[1..] && s'.delivered == s.delivered + [Queue(s)[0]]
               case _ => Queue(s') == Queue(s) && s'.delivered == s.delivered
  {
    RunInv(run, acts, k);
    RunInv(run, acts, k + 1);
    assert StepAt(run, acts, k);
    var s := run[k];
    match acts[k]
    case Exchange(i, spurious) => if s.enq == s.producers[i].pos && !spurious { FreeStays(s, i); }
    case Take(_) => assert CellOk(s, s.dq);
    case _ =>
  }

  /** What a producer has seen of a cell it read at some action before. */
  ghost predicate ReadAt<T>(run: seq<Ring<T>>, acts: seq<Action<T>>, j: nat, i: nat, p: Producer<T>)
    requires j < |acts| < |run|
  {
    acts[j] == LoadSeq(i) && i in run[j + 1].producers && run[j + 1].producers[i] == p
  }

  lemma {:induction false} SeenWasRead<T>(run: seq<Ring<T>>, acts: seq<Action<T>>, k: nat, i: nat) returns (j: nat)
    requires IsRun(run, acts) && k < |run| && i in run[k].producers && run[k].producers[i].Seen?
    ensures j < k && ReadAt(run, acts, j, i, run[k].producers[i])
    decreases k
  {
    RunInv(run, acts, k - 1);
    assert StepAt(run, acts, k - 1);
    if acts[k - 1] == LoadSeq(i) { j := k - 1; } else { j := SeenWasRead(run, acts, k - 1, i); }
  }

  /** A push is refused only on seeing the ring full: at the instant it read the cell, as many
      positions as the ring has cells were taken and not yet recycled. */
  lemma RefusedOnlyWhenFull<T>(run: seq<Ring<T>>, acts: seq<Action<T>>, k: nat, i: nat) returns (j: nat)
    requires IsRun(run, acts) && k < |acts| && acts[k] == GiveUp(i)
    ensures j < k && i in run[k].producers && ReadAt(run, acts, j, i, run[k].producers[i])
    ensures run[j].enq == run[j].dq + run[j].cap
  {
    assert StepAt(run, acts, k);
    j := SeenWasRead(run, acts, k, i);
    RunInv(run, acts, j);
    assert StepAt(run, acts, j);
    var s := run[j];
    assert ProducerOk(s, s.producers[i]);
    if s.producers[i].pos < s.dq + s.cap { SeqAtLeast(s, s.producers[i].pos); }
  }

  /** And one that reads the cell of the newest position while the ring is full can do nothing but give up. */
  lemma FullIsRefused<T>(run: seq<Ring<T>>, acts: seq<Action<T>>, k: nat, i: nat)
    requires IsRun(run, acts) && k < |acts| && acts[k] == LoadSeq(i)
    requires run[k].enq == run[k].dq + run[k].cap
    requires i in run[k].producers && run[k].producers[i].AtPos? && run[k].producers[i].pos == run[k].enq
    ensures Ready(run[k + 1], GiveUp(i)) && !Ready(run[k + 1], Exchange(i, false)) && !Ready(run[k + 1], Chase(i))
  {
    RunInv(run, acts, k);
    assert StepAt(run, acts, k);
    var s := run[k];
    NextLap(s.dq, s.cap);
    assert CellOk(s, s.dq);
  }

  /** A pop comes back empty-handed exactly when nothing is in flight or the producer that won the
      next position has not published it yet. */
  lemma EmptyOnlyWhenUnpublished<T>(run: seq<Ring<T>>, acts: seq<Action<T>>, k: nat)
    requires IsRun(run, acts) && k < |acts| && acts[k].Poll?
    ensures run[k + 1].consumer.Waiting? <==> run[k].dq == run[k].enq || Owned(run[k], run[k].dq)
  {
    RunInv(run, acts, k);
    assert StepAt(run, acts, k);
    var s := run[k];
    assert CellOk(s, s.dq);
    if Owned(s, s.dq) {
      var i :| i in s.producers && Owns(s.producers[i], s.dq);
      assert ProducerOk(s, s.producers[i]);
    }
  }

  /** No two threads ever work on one cell: writers are apart from each other and from the reader. */
  lemma CellsExclusive<T>(run: seq<Ring<T>>, acts: seq<Action<T>>, k: nat, i: nat, j: nat)
    requires IsRun(run, acts) && k < |run|
    requires i in run[k].producers && !OwnsNone(run[k].producers[i])
    ensures run[k].cap > 0
    ensures j in run[k].producers && j != i && !OwnsNone(run[k].producers[j]) ==>
              run[k].producers[i].pos % run[k].cap != run[k].producers[j].pos % run[k].cap
    ensures !run[k].consumer.Waiting? ==> run[k].producers[i].pos % run[k].cap != run[k].dq % run[k].cap
  {
    RunInv(run, acts, k);
    var s := run[k];
    assert ProducerOk(s, s.producers[i]);
    if j in s.producers && j != i && !OwnsNone(s.producers[j]) { ApartCells(s, i, j); }
    if !s.consumer.Waiting? { OtherCell(s, s.producers[i].pos, s.dq); }
  }
}
