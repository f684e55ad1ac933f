/** The wake gate: an event count that lets one consumer sleep and any number of producers wake it.
    Each atomic access, lock and condition-variable operation is a step of its own; releasing the mutex goes with
    the step before it. */
module WakeGate {

  /** A producer after it made work visible: it bumps the epoch and, if it saw a waiter, takes the
      mutex and notifies. */
  datatype Producer = Calm | Published | MustNotify | Holding

  /** The consumer inside waitUntil; `epoch` is what its registration read. */
  datatype Consumer =
    | Awake
    | Registered(epoch: nat)  // about to re-check for work
    | Locking(epoch: nat)     // saw no work, about to take the mutex
    | Testing(epoch: nat)     // holds the mutex, about to read the epoch for the wait predicate
    | Looking(epoch: nat)     // saw its own epoch, about to look for work, still holding the mutex
    | Committed(epoch: nat)   // predicate was false, about to release the mutex and sleep at once
    | Parked(epoch: nat)
    | Roused(epoch: nat)      // notified or woken for no reason, about to take the mutex and test again
    | Expired                 // timed out, about to take the mutex and give up
    | Leaving                 // about to deregister

  /** `work` is what the consumer could take now. A publish may add nothing to it, when an earlier position
      of the ring is still unpublished, and a later one then adds both. */
  datatype Gate = Gate(epoch: nat, waiters: nat, work: nat, producers: map<nat, Producer>, consumer: Consumer)

  datatype Action =
    | Publish(i: nat, n: nat) | Bump(i: nat) | Lock(i: nat) | Notify(i: nat)
    | Register | Recheck | TakeMutex | TestEpoch | TestWork | Sleep | Stir | Timeout | Retake | Deregister | Drain

  predicate ConsumerHolds(c: Consumer) { c.Testing? || c.Looking? || c.Committed? }

  ghost predicate MutexFree(s: Gate) {
    !ConsumerHolds(s.consumer) && forall i :: i in s.producers ==> !s.producers[i].Holding?
  }

  ghost predicate Ready(s: Gate, a: Action) {
    match a
    case Publish(i, _) => i in s.producers && s.producers[i].Calm?
    case Bump(i) => i in s.producers && s.producers[i].Published?
    case Lock(i) => i in s.producers && s.producers[i].MustNotify? && MutexFree(s)
    case Notify(i) => i in s.producers && s.producers[i].Holding?
    case Register => s.consumer.Awake?
    case Recheck => s.consumer.Registered?
    case TakeMutex => s.consumer.Locking? && MutexFree(s)
    case TestEpoch => s.consumer.Testing?
    case TestWork => s.consumer.Looking?
    case Sleep => s.consumer.Committed?
    case Stir => s.consumer.Parked?
    case Timeout => s.consumer.Parked?
    case Retake => (s.consumer.Roused? || s.consumer.Expired?) && MutexFree(s)
    case Deregister => s.consumer.Leaving?
    case Drain => s.consumer.Awake? && s.work > 0
  }

  function Moved(s: Gate, i: nat, p: Producer): Gate { s.(producers := s.producers[i := p]) }

  ghost function Step(s: Gate, a: Action): Gate
    requires Ready(s, a)
  {
    match a
    case Publish(i, n) => Moved(s, i, Published).(work := s.work + n)
    case Bump(i) => Moved(s, i, if s.waiters != 0 then MustNotify else Calm).(epoch := s.epoch + 1)
    case Lock(i) => Moved(s, i, Holding)
    case Notify(i) =>
      Moved(s, i, Calm).(consumer := if s.consumer.Parked? then Roused(s.consumer.epoch) else s.consumer)
    case Register => s.(waiters := s.waiters + 1, consumer := Registered(s.epoch))
    case Recheck => s.(consumer := if s.work > 0 then Leaving else Locking(s.consumer.epoch))
    case TakeMutex => s.(consumer := Testing(s.consumer.epoch))
    case TestEpoch => s.(consumer := if s.epoch == s.consumer.epoch then Looking(s.consumer.epoch) else Leaving)
    case TestWork => s.(consumer := if s.work == 0 then Committed(s.consumer.epoch) else Leaving)
    case Sleep => s.(consumer := Parked(s.consumer.epoch))
    case Stir => s.(consumer := Roused(s.consumer.epoch))  // a spurious wake-up
    case Timeout => s.(consumer := Expired)
    case Retake => s.(consumer := if s.consumer.Roused? then Testing(s.consumer.epoch) else Leaving)
    case Deregister => s.(waiters := if s.waiters > 0 then s.waiters - 1 else 0, consumer := Awake)
    case Drain => s.(work := s.work - 1)
  }

  // ---- the invariant -------------------------------------------------------------------------------

  /** Producer i still owes the gate a bump or a notification. */
  predicate Owes(p: Producer) { !p.Calm? }

  ghost predicate SomeOwes(s: Gate) { exists i :: i in s.producers && Owes(s.producers[i]) }

  ghost predicate Inv(s: Gate) {
    && (s.waiters == if s.consumer.Awake? then 0 else 1)
    && (forall i, j :: i in s.producers && j in s.producers && s.producers[i].Holding? && s.producers[j].Holding? ==>
          i == j)
    && (ConsumerHolds(s.consumer) ==> forall i :: i in s.producers ==> !s.producers[i].Holding?)
    && (s.consumer.Looking? && s.epoch != s.consumer.epoch ==> SomeOwes(s))
    && ((s.consumer.Committed? || s.consumer.Parked?) && (s.work > 0 || s.epoch != s.consumer.epoch) ==> SomeOwes(s))
  }

  ghost predicate Init(s: Gate) {
    && s.epoch == 0 && s.waiters == 0 && s.work == 0 && s.consumer.Awake?
    && forall i :: i in s.producers ==> s.producers[i].Calm?
  }

  lemma StepInv(s: Gate, a: Action)
    requires Inv(s) && Ready(s, a)
    ensures Inv(Step(s, a))
  {
    var s' := Step(s, a);
    match a
    case Publish(i, _) => assert Owes(s'.producers[i]);
    case Bump(i) => if s.waiters != 0 { assert Owes(s'.producers[i]); }
    case Lock(i) => assert Owes(s'.producers[i]);
    case _ =>
  }

  ghost predicate IsRun(run: seq<Gate>, acts: seq<Action>) {
    && |run| == |acts| + 1 && Init(run[0])
    && forall k {:trigger StepAt(run, acts, k)} :: 0 <= k < |acts| ==> StepAt(run, acts, k)
  }

  ghost predicate StepAt(run: seq<Gate>, acts: seq<Action>, k: nat)
    requires k < |acts| < |run|
  {
    Ready(run[k], acts[k]) && run[k + 1] == Step(run[k], acts[k])
  }

  lemma {:induction false} RunInv(run: seq<Gate>, acts: seq<Action>, k: nat)
    requires IsRun(run, acts) && k < |run|
    ensures Inv(run[k])
  {
    if k > 0 {
      RunInv(run, acts, k - 1);
      assert StepAt(run, acts, k - 1);
      StepInv(run[k - 1], acts[k - 1]);
    }
  }

  /** Some producer's next step is enabled, and its steps lead to a notification. */
  ghost predicate WakeUnderWay(s: Gate) {
    exists i :: i in s.producers &&
      match s.producers[i]
      case Calm => false
      case Published => Ready(s, Bump(i)) && Step(s, Bump(i)).producers[i].MustNotify?
      case MustNotify => Ready(s, Lock(i))
      case Holding => Ready(s, Notify(i)) && Step(s, Notify(i)).consumer.Roused?
  }

  /** No lost wake-up: while the consumer sleeps on visible work, a producer is on its way to wake it
      and nothing blocks that producer. */
  lemma NoLostWakeup(run: seq<Gate>, acts: seq<Action>, k: nat)
    requires IsRun(run, acts) && k < |run|
    requires run[k].consumer.Parked? && run[k].work > 0
    ensures WakeUnderWay(run[k])
  {
    RunInv(run, acts, k);
    var s := run[k];
    var i :| i in s.producers && Owes(s.producers[i]);
    if j :| j in s.producers && s.producers[j].Holding? {
      assert Ready(s, Notify(j)) && Step(s, Notify(j)).consumer.Roused?;
    } else {
      assert MutexFree(s);
      assert s.producers[i].MustNotify? ==> Ready(s, Lock(i));
    }
  }

  /** A producer takes the mutex exactly when the consumer has registered and not yet left. */
  lemma NotifiesExactlyWaiters(run: seq<Gate>, acts: seq<Action>, k: nat)
    requires IsRun(run, acts) && k < |acts| && acts[k].Bump?
    ensures acts[k].i in run[k + 1].producers
    ensures run[k + 1].producers[acts[k].i].MustNotify? <==> !run[k].consumer.Awake?
    ensures run[k + 1].producers[acts[k].i].Calm? <==> run[k].consumer.Awake?
  {
    RunInv(run, acts, k);
    assert StepAt(run, acts, k);
  }

  ghost predicate Leads(s: Gate, a: Action, s': Gate) { Ready(s, a) && Step(s, a) == s' }

  function Now(s: Gate, c: Consumer): Gate { s.(waiters := if c.Awake? then 0 else 1, consumer := c) }

  /** Left alone, a consumer with nothing to do falls asleep, and one with work turns back at once. */
  lemma ConsumerAlone(s: Gate)
    requires Inv(s) && MutexFree(s) && s.consumer.Awake?
    ensures Leads(s, Register, Now(s, Registered(s.epoch)))
    ensures s.work == 0 ==>
              && Leads(Now(s, Registered(s.epoch)), Recheck, Now(s, Locking(s.epoch)))
              && Leads(Now(s, Locking(s.epoch)), TakeMutex, Now(s, Testing(s.epoch)))
              && Leads(Now(s, Testing(s.epoch)), TestEpoch, Now(s, Looking(s.epoch)))
              && Leads(Now(s, Looking(s.epoch)), TestWork, Now(s, Committed(s.epoch)))
              && Leads(Now(s, Committed(s.epoch)), Sleep, Now(s, Parked(s.epoch)))
    ensures s.work > 0 ==>
              && Leads(Now(s, Registered(s.epoch)), Recheck, Now(s, Leaving)) && Leads(Now(s, Leaving), Deregister, s)
  {}
}
