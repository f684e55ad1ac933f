/** The single-producer single-consumer ring with cached opposite indices, one atomic access a step. */
module SpscRing {
  import opened Modular

  datatype Producer<T> =
    | Idle
    | Refreshing(v: T)  // looked full: about to load head
    | Writing(v: T)     // about to write the slot
    | Storing(v: T)     // about to publish the new tail

  datatype Consumer = Resting | Checking | Reading | Retiring

  /** `pushed` and `delivered` record what was published and what came out. */
  datatype Ring<T> = Ring(
    cap: nat, slots: seq<T>, tail: nat, cachedHead: nat, head: nat, cachedTail: nat,
    producer: Producer<T>, consumer: Consumer, pushed: seq<T>, delivered: seq<T>)

  datatype Action<T> =
    | Push(v: T) | LoadHead | WriteSlot | StoreTail
    | Pop | LoadTail | ReadSlot(leftover: T) | StoreHead

  ghost predicate Init<T>(s: Ring<T>) {
    && s.cap >= 1 && |s.slots| == s.cap
    && s.tail == s.cachedHead == s.head == s.cachedTail == 0
    && s.producer.Idle? && s.consumer == Resting && s.pushed == [] && s.delivered == []
  }

  predicate Ready<T>(s: Ring<T>, a: Action<T>) {
    match a
    case Push(_) => s.producer.Idle?
    case LoadHead => s.producer.Refreshing?
    case WriteSlot => s.producer.Writing?
    case StoreTail => s.producer.Storing?
    case Pop => s.consumer.Resting?
    case LoadTail => s.consumer.Checking?
    case ReadSlot(_) => s.consumer.Reading?
    case StoreHead => s.consumer.Retiring?
  }

  ghost predicate Shaped<T>(s: Ring<T>) { s.cap >= 1 && |s.slots| == s.cap }

  ghost function Step<T>(s: Ring<T>, a: Action<T>): Ring<T>
    requires Shaped(s) && Ready(s, a)
  {
    match a
    case Push(v) => s.(producer := if s.tail - s.cachedHead >= s.cap then Refreshing(v) else Writing(v))
    case LoadHead =>
      s.(cachedHead := s.head, producer := if s.tail - s.head >= s.cap then Idle else Writing(s.producer.v))
    case WriteSlot => s.(slots := s.slots[s.tail % s.cap := s.producer.v], producer := Storing(s.producer.v))
    case StoreTail => s.(tail := s.tail + 1, producer := Idle, pushed := s.pushed + [s.producer.v])
    case Pop => s.(consumer := if s.head == s.cachedTail then Checking else Reading)
    case LoadTail => s.(cachedTail := s.tail, consumer := if s.head == s.tail then Resting else Reading)
    case ReadSlot(leftover) =>
      s.(delivered := s.delivered + [s.slots[s.head % s.cap]], consumer := Retiring,
         slots := s.slots[s.head % s.cap := leftover])
    case StoreHead => s.(head := s.head + 1, consumer := Resting)
  }

  // ---- the invariant -------------------------------------------------------------------------------

  ghost predicate SlotOk<T>(s: Ring<T>, p: nat)
    requires Shaped(s) && |s.pushed| == s.tail && s.head <= p < s.tail
  {
    s.slots[p % s.cap] == s.pushed[p] || (p == s.head && s.consumer.Retiring?)
  }

  function Popped<T>(s: Ring<T>): nat { if s.consumer.Retiring? then s.head + 1 else s.head }

  ghost predicate Inv<T>(s: Ring<T>) {
    && Shaped(s) && |s.pushed| == s.tail
    && s.cachedHead <= s.head <= s.cachedTail <= s.tail <= s.cachedHead + s.cap
    && (s.producer.Writing? || s.producer.Storing? ==> s.tail < s.cachedHead + s.cap)
    && (s.producer.Storing? ==> s.slots[s.tail % s.cap] == s.producer.v)
    && (s.consumer.Reading? || s.consumer.Retiring? ==> s.head < s.cachedTail)
    && (forall p {:trigger SlotOk(s, p)} :: s.head <= p < s.tail ==> SlotOk(s, p))
    && Popped(s) <= s.tail && s.delivered == s.pushed[..Popped(s)]
  }

  lemma WriteInv<T>(s: Ring<T>)
    requires Inv(s) && s.producer.Writing?
    ensures Inv(Step(s, WriteSlot))
  {
    var s' := Step(s, WriteSlot);
    forall p | s'.head <= p < s'.tail ensures SlotOk(s', p) {
      assert SlotOk(s, p);
      CellsDiffer(p, s.tail, s.cap);
    }
  }

  lemma StoreTailInv<T>(s: Ring<T>)
    requires Inv(s) && s.producer.Storing?
    ensures Inv(Step(s, StoreTail))
  {
    var s' := Step(s, StoreTail);
    forall p | s'.head <= p < s'.tail ensures SlotOk(s', p) {
      if p < s.tail { assert SlotOk(s, p); }
    }
    assert s'.pushed[..Popped(s')] == s.pushed[..Popped(s)];
  }

  lemma ReadInv<T>(s: Ring<T>, leftover: T)
    requires Inv(s) && s.consumer.Reading?
    ensures Inv(Step(s, ReadSlot(leftover)))
  {
    var s' := Step(s, ReadSlot(leftover));
    assert SlotOk(s, s.head);
    forall p | s'.head <= p < s'.tail ensures SlotOk(s', p) {
      assert SlotOk(s, p);
      if p != s.head { CellsDiffer(s.head, p, s.cap); }
    }
    if s.producer.Storing? { CellsDiffer(s.head, s.tail, s.cap); }
  }

  lemma PrivateInv<T>(s: Ring<T>, a: Action<T>)
    requires Inv(s) && Ready(s, a) && (a.Push? || a.LoadHead? || a.Pop? || a.LoadTail? || a.StoreHead?)
    ensures Inv(Step(s, a))
  {
    var s' := Step(s, a);
    forall p | s'.head <= p < s'.tail ensures SlotOk(s', p) {
      assert SlotOk(s, p);
    }
  }

  lemma StepInv<T>(s: Ring<T>, a: Action<T>)
    requires Inv(s) && Ready(s, a)
    ensures Inv(Step(s, a))
  {
    match a
    case WriteSlot => WriteInv(s);
    case StoreTail => StoreTailInv(s);
    case ReadSlot(leftover) => ReadInv(s, leftover);
    case _ => PrivateInv(s, a);
  }

  ghost predicate IsRun<T>(run: seq<Ring<T>>, acts: seq<Action<T>>) {
    && |run| == |acts| + 1 && Init(run[0])
    && forall k {:trigger StepAt(run, acts, k)} :: 0 <= k < |acts| ==> StepAt(run, acts, k)
  }

  ghost predicate StepAt<T>(run: seq<Ring<T>>, acts: seq<Action<T>>, k: nat)
    requires k < |acts| < |run|
  {
    Shaped(run[k]) && Ready(run[k], acts[k]) && run[k + 1] == Step(run[k], acts[k])
  }

  lemma {:induction false} RunInv<T>(run: seq<Ring<T>>, acts: seq<Action<T>>, k: nat)
    requires IsRun(run, acts) && k < |run|
    ensures Inv(run[k])
  {
    if k > 0 {
      RunInv(run, acts, k - 1);
      assert StepAt(run, acts, k - 1);
      StepInv(run[k - 1], acts[k - 1]);
    }
  }

  // ---- a bounded queue ------------------------------------------------------------------------------------

  ghost function Queue<T>(s: Ring<T>): seq<T>
    requires |s.delivered| <= |s.pushed|
  {
    s.pushed[|s.delivered|..]
  }

  /** In every interleaving the consumer gets what the producer published, in order, each once, and the
      queue never holds more than the capacity. */
  lemma Fifo<T>(run: seq<Ring<T>>, acts: seq<Action<T>>, k: nat)
    requires IsRun(run, acts) && k < |run|
    ensures run[k].delivered <= run[k].pushed && |Queue(run[k])| <= run[k].cap
  {
    RunInv(run, acts, k);
  }

  lemma StepRefinesQueue<T>(s: Ring<T>, a: Action<T>)
    requires Inv(s) && Ready(s, a)
    ensures var s' := Step(s, a);
            && |s.delivered| <= |s.pushed| && |s'.delivered| <= |s'.pushed|
            && match a
               case StoreTail => |Queue(s)| < s.cap && Queue(s') == Queue(s) + [s.producer.v]
               case ReadSlot(_) => Queue(s) != [] && Queue(s') == Queue(s)[1..]
                   && s'.delivered == s.delivered + [Queue(s)[0]]
               case _ => Queue(s') == Queue(s) && s'.delivered == s.delivered
  {
    StepInv(s, a);
    if a.ReadSlot? {
      assert SlotOk(s, s.head);
    } else if a.StoreTail? {
      QueueGrows(s.pushed, s.producer.v, |s.delivered|);
    }
  }

  lemma QueueGrows<T>(pushed: seq<T>, v: T, n: nat)
    requires n <= |pushed|
    ensures (pushed + [v])[n..] == pushed[n..] + [v]
  {}

  /** A push comes back refused only when the ring is really full and a pop empty-handed only when it is really
      empty, whatever the caches said; and then they do. */
  lemma RefusalsExact<T>(run: seq<Ring<T>>, acts: seq<Action<T>>, k: nat)
    requires IsRun(run, acts) && k < |acts|
    ensures (acts[k].Push? || acts[k].LoadHead?) && run[k + 1].producer.Idle? ==>
              run[k].tail - run[k].head == run[k].cap
    ensures acts[k].LoadHead? && run[k].tail - run[k].head == run[k].cap ==> run[k + 1].producer.Idle?
    ensures (acts[k].Pop? || acts[k].LoadTail?) && run[k + 1].consumer.Resting? ==> run[k].tail == run[k].head
    ensures acts[k].LoadTail? && run[k].tail == run[k].head ==> run[k + 1].consumer.Resting?
    ensures acts[k].Push? && run[k + 1].producer.Writing? ==> run[k].tail - run[k].head < run[k].cap
    ensures acts[k].Pop? && run[k + 1].consumer.Reading? ==> run[k].head < run[k].tail
  {
    RunInv(run, acts, k);
    assert StepAt(run, acts, k);
  }

  /** The producer never writes the slot the consumer is reading. */
  lemma SlotsExclusive<T>(run: seq<Ring<T>>, acts: seq<Action<T>>, k: nat)
    requires IsRun(run, acts) && k < |run|
    requires run[k].producer.Writing? || run[k].producer.Storing?
    requires run[k].consumer.Reading? || run[k].consumer.Retiring?
    ensures run[k].cap > 0 && run[k].tail % run[k].cap != run[k].head % run[k].cap
  {
    RunInv(run, acts, k);
    CellsDiffer(run[k].head, run[k].tail, run[k].cap);
  }
}
