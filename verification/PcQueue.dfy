/**
 The semaphore and the producer-consumer queue of socket/src/util.hpp, with any number of
 threads.  Each mutex operation, each access to shared data and each condition signal is a step
 of its own; a signal is issued after the mutex is released, the semaphore and the queue have
 different mutexes, and a sleeping thread may wake up at any time without a signal.
 */
module PcQueue {
  import opened Words

  /** Program counters of one thread, in the order of the code. */
  datatype Pc<T> =
    | Idle
    // push: the queue's mutex, then signal(n)
    | PushLock(items: seq<T>)
    | Pushing(items: seq<T>, i: nat)
    | SigLock(n: nat)
    | SigAdd(n: nat)
    | SigUnlock(n: nat)
    | Notify(n: nat)
    // pop: wait(), then the queue's mutex
    | WaitLock
    | WaitTest
    | Sleeping
    | Woken
    | Retest
    | WaitUnlock
    | PopLock
    | Popping
    | PopUnlock(x: T)

  datatype Owner = Free | By(t: nat)

  /** `pushed`, `popped` and `batches` are history: the items in the order of q.push, those in
      the order of q.pop, and the completed calls of push in the order of their unlocks. */
  datatype State<T> = State(
    q: seq<T>, counter: nat, qMutex: Owner, semMutex: Owner, threads: seq<Pc<T>>,
    pushed: seq<T>, popped: seq<T>, batches: seq<seq<T>>)

  /** Calls, a thread going on, a signal that wakes thread u or nobody, a spurious wakeup. */
  datatype Step<T> =
    | CallPush(t: nat, items: seq<T>)
    | CallPop(t: nat)
    | Go(t: nat)
    | Wake(t: nat, u: nat)
    | WakeNobody(t: nat)
    | Spurious(u: nat)

  function Init<T>(n: nat): (s: State<T>) {
    State([], 0, Free, Free, seq(n, _ => Idle), [], [], [])
  }

  predicate GoEnabled<T>(s: State<T>, pc: Pc<T>) {
    match pc
    case PushLock(_) => s.qMutex.Free?
    case Pushing(_, _) => true
    case SigLock(_) => s.semMutex.Free?
    case SigAdd(_) => true
    case SigUnlock(_) => true
    case Notify(n) => n == 0
    case WaitLock => s.semMutex.Free?
    case WaitTest => true
    case Woken => s.semMutex.Free?
    case Retest => true
    case WaitUnlock => true
    case PopLock => s.qMutex.Free?
    // front() on an empty queue is undefined.
    case Popping => s.q != []
    case PopUnlock(_) => true
    case Idle => false
    case Sleeping => false
  }

  predicate Enabled<T>(s: State<T>, step: Step<T>) {
    match step
    case CallPush(t, items) => t < |s.threads| && s.threads[t].Idle?
    case CallPop(t) => t < |s.threads| && s.threads[t].Idle?
    case Go(t) => t < |s.threads| && GoEnabled(s, s.threads[t])
    case Wake(t, u) =>
      t < |s.threads| && u < |s.threads| && s.threads[t].Notify? && s.threads[t].n > 0 && s.threads[u].Sleeping?
    case WakeNobody(t) =>
      && t < |s.threads| && s.threads[t].Notify? && s.threads[t].n > 0
      && forall u | 0 <= u < |s.threads| :: !s.threads[u].Sleeping?
    case Spurious(u) => u < |s.threads| && s.threads[u].Sleeping?
  }

  function At<T>(s: State<T>, t: nat, pc: Pc<T>): (r: State<T>)
    requires t < |s.threads|
  {
    s.(threads := s.threads[t := pc])
  }

  function DoGo<T>(s: State<T>, t: nat): (r: State<T>)
    requires Enabled(s, Go(t))
  {
    match s.threads[t]
    case PushLock(items) => At(s, t, Pushing(items, 0)).(qMutex := By(t))
    case Pushing(items, i) =>
      if i < |items| then
        At(s, t, Pushing(items, i + 1)).(q := s.q + [items[i]], pushed := s.pushed + [items[i]])
      else
        At(s, t, SigLock(|items|)).(qMutex := Free, batches := s.batches + [items])
    case SigLock(n) => At(s, t, SigAdd(n)).(semMutex := By(t))
    case SigAdd(n) => At(s, t, SigUnlock(n)).(counter := (s.counter + n) % WORD)
    case SigUnlock(n) => At(s, t, Notify(n)).(semMutex := Free)
    case Notify(_) => At(s, t, Idle)
    case WaitLock => At(s, t, WaitTest).(semMutex := By(t))
    // pthread_cond_wait releases the mutex and sleeps in one step.
    case WaitTest | Retest =>
      if s.counter == 0 then At(s, t, Sleeping).(semMutex := Free)
      else At(s, t, WaitUnlock).(counter := s.counter - 1)
    case Woken => At(s, t, Retest).(semMutex := By(t))
    case WaitUnlock => At(s, t, PopLock).(semMutex := Free)
    case PopLock => At(s, t, Popping).(qMutex := By(t))
    case Popping => At(s, t, PopUnlock(s.q[0])).(q := s.q[1..], popped := s.popped + [s.q[0]])
    case PopUnlock(_) => At(s, t, Idle).(qMutex := Free)
  }

  function Do<T>(s: State<T>, step: Step<T>): (r: State<T>)
    requires Enabled(s, step)
  {
    match step
    case CallPush(t, items) => At(s, t, PushLock(items))
    case CallPop(t) => At(s, t, WaitLock)
    case Go(t) => DoGo(s, t)
    case Wake(t, u) => At(At(s, u, Woken), t, Notify(s.threads[t].n - 1))
    case WakeNobody(t) => At(s, t, Notify(s.threads[t].n - 1))
    case Spurious(u) => At(s, u, Woken)
  }

  datatype Outcome<T> = Stuck | Reached(s: State<T>)

  /** The queue is shorter than 2^32; runs that fill it further are not considered. */
  predicate Short<T>(s: State<T>) { |s.q| < WORD }

  function From<T>(s: State<T>, steps: seq<Step<T>>): (o: Outcome<T>)
    decreases |steps|
  {
    if steps == [] then Reached(s)
    else if Enabled(s, steps[0]) && Short(Do(s, steps[0])) then From(Do(s, steps[0]), steps[1..])
    else Stuck
  }

  ghost predicate Reachable<T(!new)>(s: State<T>) {
    exists n: nat, steps: seq<Step<T>> :: From(Init(n), steps) == Reached(s)
  }

  // ---------------------------------------------------------------- counting threads

  /** Items a thread has put into the queue and not yet added to the semaphore. */
  ghost function Unsignalled<T>(pc: Pc<T>): nat {
    match pc
    case Pushing(_, i) => i
    case SigLock(n) => n
    case SigAdd(n) => n
    case _ => 0
  }

  /** 1 for a thread past `wait` that has not popped. */
  ghost function Granted<T>(pc: Pc<T>): nat {
    if pc.WaitUnlock? || pc.PopLock? || pc.Popping? then 1 else 0
  }

  /** Condition signals a thread still has to issue. */
  ghost function Pending<T>(pc: Pc<T>): nat {
    match pc
    case SigUnlock(n) => n
    case Notify(n) => n
    case _ => 0
  }

  /** 1 for a woken thread that has not tested the counter again. */
  ghost function Awake<T>(pc: Pc<T>): nat {
    if pc.Woken? || pc.Retest? then 1 else 0
  }

  /** Steps a thread has left in its call, counting the wakeups it still causes. */
  ghost function Work<T>(pc: Pc<T>): nat {
    match pc
    case Idle => 0
    case PushLock(items) => 8 * |items| + 6
    case Pushing(items, i) => 7 * |items| + (if i <= |items| then |items| - i else 0) + 5
    case SigLock(n) => 7 * n + 4
    case SigAdd(n) => 7 * n + 3
    case SigUnlock(n) => 7 * n + 2
    case Notify(n) => 7 * n + 1
    case WaitLock => 6
    case WaitTest => 5
    case Sleeping => 0
    case Woken => 6
    case Retest => 5
    case WaitUnlock => 4
    case PopLock => 3
    case Popping => 2
    case PopUnlock(_) => 1
  }

  ghost function Sum<T>(threads: seq<Pc<T>>, f: Pc<T> -> nat): nat {
    if threads == [] then 0 else f(threads[0]) + Sum(threads[1..], f)
  }

  lemma {:induction false} SumUpdate<T>(threads: seq<Pc<T>>, t: nat, pc: Pc<T>, f: Pc<T> -> nat)
    requires t < |threads|
    ensures Sum(threads[t := pc], f) + f(threads[t]) == Sum(threads, f) + f(pc)
    ensures f(threads[t]) <= Sum(threads, f)
  {
    if t == 0 {
      assert threads[t := pc][1..] == threads[1..];
    } else {
      SumUpdate(threads[1..], t - 1, pc, f);
      assert threads[t := pc][1..] == threads[1..][t - 1 := pc];
    }
  }

  lemma {:induction false} SumZero<T>(threads: seq<Pc<T>>, f: Pc<T> -> nat)
    requires forall t | 0 <= t < |threads| :: f(threads[t]) == 0
    ensures Sum(threads, f) == 0
  {
    if threads == [] {
    } else {
      SumZero(threads[1..], f);
    }
  }

  lemma {:induction false} SumPositive<T>(threads: seq<Pc<T>>, f: Pc<T> -> nat) returns (t: nat)
    requires Sum(threads, f) > 0
    ensures t < |threads| && f(threads[t]) > 0
  {
    if f(threads[0]) > 0 {
      t := 0;
    } else {
      t := SumPositive(threads[1..], f);
      t := t + 1;
    }
  }

  // ---------------------------------------------------------------- invariant

  predicate HoldsQueue<T>(pc: Pc<T>) { pc.Pushing? || pc.Popping? || pc.PopUnlock? }

  predicate HoldsSem<T>(pc: Pc<T>) {
    pc.SigAdd? || pc.SigUnlock? || pc.WaitTest? || pc.Retest? || pc.WaitUnlock?
  }

  ghost predicate Mutexes<T>(s: State<T>) {
    && (forall t: nat | t < |s.threads| :: HoldsQueue(s.threads[t]) <==> s.qMutex == By(t))
    && (forall t: nat | t < |s.threads| :: HoldsSem(s.threads[t]) <==> s.semMutex == By(t))
    && (s.qMutex.By? ==> s.qMutex.t < |s.threads|)
    && (s.semMutex.By? ==> s.semMutex.t < |s.threads|)
  }

  /** Queue length = counter + poppers past `wait` + items not yet signalled. */
  ghost predicate Counted<T>(s: State<T>) {
    |s.q| == s.counter + Sum(s.threads, Granted) + Sum(s.threads, Unsignalled)
  }

  ghost predicate SomeoneSleeps<T>(s: State<T>) {
    exists t: nat :: t < |s.threads| && s.threads[t].Sleeping?
  }

  ghost predicate WakeupsPending<T>(s: State<T>) {
    SomeoneSleeps(s) ==> s.counter <= Sum(s.threads, Pending) + Sum(s.threads, Awake)
  }

  ghost function Flat<T>(batches: seq<seq<T>>): seq<T> {
    if batches == [] then [] else Flat(batches[..|batches| - 1]) + batches[|batches| - 1]
  }

  /** The part of a push in progress that is in the queue already. */
  ghost function Partial<T>(s: State<T>): seq<T> {
    if s.qMutex.By? && s.qMutex.t < |s.threads| && s.threads[s.qMutex.t].Pushing?
       && s.threads[s.qMutex.t].i <= |s.threads[s.qMutex.t].items|
    then s.threads[s.qMutex.t].items[..s.threads[s.qMutex.t].i] else []
  }

  ghost predicate History<T>(s: State<T>) {
    && s.popped + s.q == s.pushed
    && s.pushed == Flat(s.batches) + Partial(s)
    && (forall t: nat | t < |s.threads| && s.threads[t].Pushing? :: s.threads[t].i <= |s.threads[t].items|)
  }

  ghost predicate Inv<T>(s: State<T>) {
    Mutexes(s) && Counted(s) && WakeupsPending(s) && History(s) && Short(s)
  }

  lemma InitInv<T>(n: nat)
    ensures Inv(Init<T>(n))
  {
    var s := Init<T>(n);
    SumZero(s.threads, Granted);
    SumZero(s.threads, Unsignalled);
  }

  /** The steps at the queue's mutex, in `signal` and in `wait`. */
  predicate QueueSide<T>(pc: Pc<T>) {
    pc.PushLock? || pc.Pushing? || pc.PopLock? || pc.Popping? || pc.PopUnlock?
  }

  predicate SignalSide<T>(pc: Pc<T>) { pc.SigLock? || pc.SigAdd? || pc.SigUnlock? || pc.Notify? }

  predicate WaitSide<T>(pc: Pc<T>) {
    pc.WaitLock? || pc.WaitTest? || pc.Woken? || pc.Retest? || pc.WaitUnlock?
  }

  lemma QueueMutexes<T>(s: State<T>, t: nat)
    requires Mutexes(s) && Enabled(s, Go(t)) && QueueSide(s.threads[t])
    ensures Mutexes(DoGo(s, t))
  {
  }

  /** A step that leaves the queue's mutex alone and takes, keeps or releases the semaphore's. */
  lemma SemOwner<T>(s: State<T>, s': State<T>, t: nat, pc: Pc<T>)
    requires Mutexes(s) && t < |s.threads| && s'.threads == s.threads[t := pc] && s'.qMutex == s.qMutex
    requires !HoldsQueue(s.threads[t]) && !HoldsQueue(pc)
    requires if HoldsSem(pc) then s'.semMutex == By(t) && (s.semMutex.Free? || s.semMutex == By(t))
             else s'.semMutex == (if HoldsSem(s.threads[t]) then Free else s.semMutex)
    ensures Mutexes(s')
  {
  }

  lemma SemMutexes<T>(s: State<T>, t: nat)
    requires Mutexes(s) && Enabled(s, Go(t)) && !QueueSide(s.threads[t])
    ensures Mutexes(DoGo(s, t))
  {
    SemOwner(s, DoGo(s, t), t, DoGo(s, t).threads[t]);
  }

  lemma QueueCounted<T>(s: State<T>, t: nat)
    requires Counted(s) && Enabled(s, Go(t)) && QueueSide(s.threads[t]) && History(s)
    ensures Counted(DoGo(s, t))
  {
    if s.threads[t].Pushing? {
      PushCounted(s, t);
    } else {
      PopCounted(s, t);
    }
  }

  lemma PushCounted<T>(s: State<T>, t: nat)
    requires Counted(s) && Enabled(s, Go(t)) && s.threads[t].Pushing? && History(s)
    ensures Counted(DoGo(s, t))
  {
    var items, i := s.threads[t].items, s.threads[t].i;
    var pc := if i < |items| then Pushing(items, i + 1) else SigLock(|items|);
    assert DoGo(s, t).threads == s.threads[t := pc];
    SumUpdate(s.threads, t, pc, Granted);
    SumUpdate(s.threads, t, pc, Unsignalled);
  }

  lemma PopCounted<T>(s: State<T>, t: nat)
    requires Counted(s) && Enabled(s, Go(t))
    requires QueueSide(s.threads[t]) && !s.threads[t].Pushing?
    ensures Counted(DoGo(s, t))
  {
    var pc := DoGo(s, t).threads[t];
    SumUpdate(s.threads, t, pc, Granted);
    SumUpdate(s.threads, t, pc, Unsignalled);
  }

  /** The counter never wraps around: what is added is in the queue already. */
  lemma NoWrap<T>(s: State<T>, t: nat)
    requires Counted(s) && Short(s) && t < |s.threads| && s.threads[t].SigAdd?
    ensures (s.counter + s.threads[t].n) % WORD == s.counter + s.threads[t].n
  {
    SumUpdate(s.threads, t, Idle, Unsignalled);
  }

  lemma SignalCounted<T>(s: State<T>, t: nat)
    requires Counted(s) && Short(s) && Enabled(s, Go(t)) && SignalSide(s.threads[t])
    ensures Counted(DoGo(s, t)) && DoGo(s, t).q == s.q
  {
    if s.threads[t].SigAdd? {
      AddCounted(s, t);
    } else {
      var pc := DoGo(s, t).threads[t];
      SumUpdate(s.threads, t, pc, Granted);
      SumUpdate(s.threads, t, pc, Unsignalled);
    }
  }

  lemma AddCounted<T>(s: State<T>, t: nat)
    requires Counted(s) && Short(s) && t < |s.threads| && s.threads[t].SigAdd?
    ensures Counted(DoGo(s, t))
  {
    NoWrap(s, t);
    SumUpdate(s.threads, t, SigUnlock(s.threads[t].n), Granted);
    SumUpdate(s.threads, t, SigUnlock(s.threads[t].n), Unsignalled);
  }

  lemma WaitCounted<T>(s: State<T>, t: nat)
    requires Counted(s) && Enabled(s, Go(t)) && WaitSide(s.threads[t])
    ensures Counted(DoGo(s, t)) && DoGo(s, t).q == s.q
  {
    var pc := DoGo(s, t).threads[t];
    SumUpdate(s.threads, t, pc, Granted);
    SumUpdate(s.threads, t, pc, Unsignalled);
  }

  lemma QueueWakeups<T>(s: State<T>, t: nat)
    requires WakeupsPending(s) && Enabled(s, Go(t)) && QueueSide(s.threads[t])
    ensures WakeupsPending(DoGo(s, t))
  {
    var s' := DoGo(s, t);
    SumUpdate(s.threads, t, s'.threads[t], Pending);
    SumUpdate(s.threads, t, s'.threads[t], Awake);
    if u: nat :| u < |s'.threads| && s'.threads[u].Sleeping? {
      assert s.threads[u].Sleeping?;
    }
  }

  lemma SignalWakeups<T>(s: State<T>, t: nat)
    requires Counted(s) && WakeupsPending(s) && Short(s) && Enabled(s, Go(t)) && SignalSide(s.threads[t])
    ensures WakeupsPending(DoGo(s, t))
  {
    if s.threads[t].SigAdd? {
      AddWakeups(s, t);
    } else {
      var s' := DoGo(s, t);
      SumUpdate(s.threads, t, s'.threads[t], Pending);
      SumUpdate(s.threads, t, s'.threads[t], Awake);
      if u: nat :| u < |s'.threads| && s'.threads[u].Sleeping? {
        assert s.threads[u].Sleeping?;
      }
    }
  }

  lemma AddWakeups<T>(s: State<T>, t: nat)
    requires Counted(s) && WakeupsPending(s) && Short(s) && t < |s.threads| && s.threads[t].SigAdd?
    ensures WakeupsPending(DoGo(s, t))
  {
    NoWrap(s, t);
    var s' := DoGo(s, t);
    SumUpdate(s.threads, t, s'.threads[t], Pending);
    SumUpdate(s.threads, t, s'.threads[t], Awake);
    if u: nat :| u < |s'.threads| && s'.threads[u].Sleeping? {
      assert s.threads[u].Sleeping?;
    }
  }

  lemma WaitWakeups<T>(s: State<T>, t: nat)
    requires WakeupsPending(s) && Enabled(s, Go(t)) && WaitSide(s.threads[t])
    ensures WakeupsPending(DoGo(s, t))
  {
    var s' := DoGo(s, t);
    SumUpdate(s.threads, t, s'.threads[t], Pending);
    SumUpdate(s.threads, t, s'.threads[t], Awake);
    if u: nat :| u < |s'.threads| && s'.threads[u].Sleeping? && u != t {
      assert s.threads[u].Sleeping?;
    }
  }

  lemma PushHistory<T>(s: State<T>, t: nat)
    requires Mutexes(s) && History(s) && Enabled(s, Go(t)) && s.threads[t].Pushing?
    ensures History(DoGo(s, t))
  {
    if s.threads[t].i < |s.threads[t].items| {
      PushItem(s, t);
    } else {
      PushEnd(s, t);
    }
  }

  lemma PushItem<T>(s: State<T>, t: nat)
    requires Mutexes(s) && History(s) && Enabled(s, Go(t)) && s.threads[t].Pushing?
    requires s.threads[t].i < |s.threads[t].items|
    ensures History(DoGo(s, t))
  {
    var items, i := s.threads[t].items, s.threads[t].i;
    assert s.qMutex == By(t);
    assert Partial(s) == items[..i] && Partial(DoGo(s, t)) == items[..i + 1];
    MoreItems(s.popped, s.q, Flat(s.batches), items, i);
  }

  lemma MoreItems<T>(popped: seq<T>, q: seq<T>, flat: seq<T>, items: seq<T>, i: nat)
    requires i < |items|
    ensures popped + (q + [items[i]]) == popped + q + [items[i]]
    ensures flat + items[..i + 1] == flat + items[..i] + [items[i]]
  {
  }

  lemma PushEnd<T>(s: State<T>, t: nat)
    requires Mutexes(s) && History(s) && Enabled(s, Go(t)) && s.threads[t].Pushing?
    requires s.threads[t].i >= |s.threads[t].items|
    ensures History(DoGo(s, t))
  {
    var items := s.threads[t].items;
    assert s.qMutex == By(t) && Partial(s) == items[..|items|] == items;
    assert Partial(DoGo(s, t)) == [];
    assert (s.batches + [items])[..|s.batches|] == s.batches;
    assert Flat(s.batches) + items + [] == Flat(s.batches) + items;
  }

  /** No step of another thread changes the push in progress. */
  lemma SamePartial<T>(s: State<T>, t: nat, pc: Pc<T>, owner: Owner)
    requires Mutexes(s) && t < |s.threads|
    requires !s.threads[t].Pushing? && !(pc.Pushing? && pc.i > 0)
    requires owner == s.qMutex || (owner == By(t) && s.qMutex.Free?) || (s.qMutex == By(t) && owner.Free?)
    ensures Partial(At(s, t, pc).(qMutex := owner)) == Partial(s)
  {
  }

  lemma PopHistory<T>(s: State<T>, t: nat)
    requires Mutexes(s) && History(s) && Enabled(s, Go(t)) && s.threads[t].Popping?
    ensures History(DoGo(s, t))
  {
    SamePartial(s, t, PopUnlock(s.q[0]), s.qMutex);
    assert s.popped + [s.q[0]] + s.q[1..] == s.popped + s.q;
  }

  lemma LockHistory<T>(s: State<T>, t: nat)
    requires Mutexes(s) && History(s) && Enabled(s, Go(t))
    requires s.threads[t].PushLock? || s.threads[t].PopLock? || s.threads[t].PopUnlock?
    ensures History(DoGo(s, t))
  {
    var s' := DoGo(s, t);
    SamePartial(s, t, s'.threads[t], s'.qMutex);
    assert s' == At(s, t, s'.threads[t]).(qMutex := s'.qMutex);
  }

  /** A step that leaves the queue and its mutex alone. */
  lemma AwayHistory<T>(s: State<T>, s': State<T>, t: nat, pc: Pc<T>)
    requires Mutexes(s) && History(s) && t < |s.threads| && !s.threads[t].Pushing? && !pc.Pushing?
    requires s' == At(s, t, pc).(counter := s'.counter, semMutex := s'.semMutex)
    ensures History(s')
  {
    SamePartial(s, t, pc, s.qMutex);
    assert Partial(s') == Partial(At(s, t, pc).(qMutex := s.qMutex));
  }

  lemma SemHistory<T>(s: State<T>, t: nat)
    requires Mutexes(s) && History(s) && Enabled(s, Go(t)) && !QueueSide(s.threads[t])
    ensures History(DoGo(s, t))
  {
    var s' := DoGo(s, t);
    SemOnly(s, t);
    AwayHistory(s, s', t, s'.threads[t]);
  }

  /** A step of `signal` or `wait` touches the counter, the semaphore's mutex and one thread. */
  lemma SemOnly<T>(s: State<T>, t: nat)
    requires Enabled(s, Go(t)) && !QueueSide(s.threads[t])
    ensures var s' := DoGo(s, t);
            && s' == At(s, t, s'.threads[t]).(counter := s'.counter, semMutex := s'.semMutex)
            && !s'.threads[t].Pushing?
  {
  }

  /** A step that changes program counters only, and only between places that weigh the same. */
  lemma Light<T>(s: State<T>, t: nat, pc: Pc<T>)
    requires t < |s.threads| && Inv(s)
    requires s.threads[t].Idle? && (pc.PushLock? || pc.WaitLock?)
    ensures Inv(At(s, t, pc))
  {
    SumUpdate(s.threads, t, pc, Granted);
    SumUpdate(s.threads, t, pc, Unsignalled);
    SumUpdate(s.threads, t, pc, Pending);
    SumUpdate(s.threads, t, pc, Awake);
    assert Partial(At(s, t, pc)) == Partial(s);
  }

  lemma WakeOne<T>(s: State<T>, u: nat)
    requires Inv(s) && u < |s.threads| && s.threads[u].Sleeping?
    ensures Inv(At(s, u, Woken))
    ensures s.counter < Sum(s.threads, Pending) + Sum(s.threads, Awake) + 1
    ensures Sum(At(s, u, Woken).threads, Pending) == Sum(s.threads, Pending)
    ensures Sum(At(s, u, Woken).threads, Awake) == Sum(s.threads, Awake) + 1
  {
    SumUpdate(s.threads, u, Woken, Granted);
    SumUpdate(s.threads, u, Woken, Unsignalled);
    SumUpdate(s.threads, u, Woken, Pending);
    SumUpdate(s.threads, u, Woken, Awake);
    assert Partial(At(s, u, Woken)) == Partial(s);
  }

  lemma Signalled<T>(s: State<T>, t: nat)
    requires Inv(s) && t < |s.threads| && s.threads[t].Notify? && s.threads[t].n > 0
    requires !SomeoneSleeps(s) || s.counter < Sum(s.threads, Pending) + Sum(s.threads, Awake)
    ensures Inv(At(s, t, Notify(s.threads[t].n - 1)))
  {
    var pc := Notify(s.threads[t].n - 1);
    SumUpdate(s.threads, t, pc, Granted);
    SumUpdate(s.threads, t, pc, Unsignalled);
    assert Partial(At(s, t, pc)) == Partial(s);
    SignalledWakeups(s, t);
  }

  lemma SignalledWakeups<T>(s: State<T>, t: nat)
    requires t < |s.threads| && s.threads[t].Notify? && s.threads[t].n > 0
    requires !SomeoneSleeps(s) || s.counter < Sum(s.threads, Pending) + Sum(s.threads, Awake)
    ensures WakeupsPending(At(s, t, Notify(s.threads[t].n - 1)))
  {
    var pc := Notify(s.threads[t].n - 1);
    var s' := At(s, t, pc);
    SumUpdate(s.threads, t, pc, Pending);
    SumUpdate(s.threads, t, pc, Awake);
    if SomeoneSleeps(s') {
      var u: nat :| u < |s'.threads| && s'.threads[u].Sleeping?;
      assert s.threads[u].Sleeping?;
    }
  }

  lemma GoInv<T>(s: State<T>, t: nat)
    requires Inv(s) && Enabled(s, Go(t)) && Short(DoGo(s, t))
    ensures Inv(DoGo(s, t))
  {
    var pc := s.threads[t];
    if QueueSide(pc) {
      QueueMutexes(s, t);
      QueueCounted(s, t);
      QueueWakeups(s, t);
    } else if SignalSide(pc) {
      SemMutexes(s, t);
      SignalCounted(s, t);
      SignalWakeups(s, t);
    } else {
      SemMutexes(s, t);
      WaitCounted(s, t);
      WaitWakeups(s, t);
    }
    if pc.Pushing? {
      PushHistory(s, t);
    } else if pc.Popping? {
      PopHistory(s, t);
    } else if QueueSide(pc) {
      LockHistory(s, t);
    } else {
      SemHistory(s, t);
    }
  }

  lemma WakeInv<T>(s: State<T>, t: nat, u: nat)
    requires Inv(s) && Enabled(s, Wake(t, u))
    ensures Inv(Do(s, Wake(t, u)))
  {
    WokenStill(s, t, u);
    Signalled(At(s, u, Woken), t);
    WakeIs(s, t, u);
  }

  /** After the wakeup the signal is still to be counted. */
  lemma WokenStill<T>(s: State<T>, t: nat, u: nat)
    requires Inv(s) && Enabled(s, Wake(t, u))
    ensures var s' := At(s, u, Woken);
            && Inv(s') && t < |s'.threads| && s'.threads[t] == s.threads[t]
            && s'.counter < Sum(s'.threads, Pending) + Sum(s'.threads, Awake)
  {
    WakeOne(s, u);
  }

  lemma WakeIs<T>(s: State<T>, t: nat, u: nat)
    requires Enabled(s, Wake(t, u))
    ensures Do(s, Wake(t, u)) == At(At(s, u, Woken), t, Notify(At(s, u, Woken).threads[t].n - 1))
  {
  }

  lemma StepInv<T>(s: State<T>, step: Step<T>)
    requires Inv(s) && Enabled(s, step) && Short(Do(s, step))
    ensures Inv(Do(s, step))
  {
    if step.Go? {
      GoInv(s, step.t);
    } else if step.Wake? {
      WakeInv(s, step.t, step.u);
    } else {
      OtherInv(s, step);
    }
  }

  /** New calls, signals that wake nobody, and spurious wakeups. */
  lemma OtherInv<T>(s: State<T>, step: Step<T>)
    requires Inv(s) && Enabled(s, step) && !step.Go? && !step.Wake?
    ensures Inv(Do(s, step))
  {
    match step
    case CallPush(t, items) => Light(s, t, PushLock(items));
    case CallPop(t) => Light(s, t, WaitLock);
    case WakeNobody(t) => Signalled(s, t);
    case Spurious(u) => WakeOne(s, u);
  }

  lemma {:induction false} RunInv<T>(s: State<T>, steps: seq<Step<T>>)
    requires Inv(s) && From(s, steps).Reached?
    ensures Inv(From(s, steps).s)
    decreases |steps|
  {
    if steps == [] {
    } else {
      StepInv(s, steps[0]);
      RunInv(Do(s, steps[0]), steps[1..]);
    }
  }

  lemma ReachableInv<T(!new)>(s: State<T>)
    requires Reachable(s)
    ensures Inv(s)
  {
    var n: nat, steps: seq<Step<T>> :| From(Init(n), steps) == Reached(s);
    InitInv<T>(n);
    RunInv(Init(n), steps);
  }

  // ---------------------------------------------------------------- what holds in every run

  /** Queue length = counter + threads past `wait` + items not yet signalled; so no thread calls
      front() on an empty queue, and adding to the counter never wraps. */
  lemma QueueLength<T(!new)>(s: State<T>)
    requires Reachable(s)
    ensures |s.q| == s.counter + Sum(s.threads, Granted) + Sum(s.threads, Unsignalled)
    ensures forall t: nat | t < |s.threads| && s.threads[t].Popping? :: s.q != []
    ensures forall t: nat | t < |s.threads| && s.threads[t].SigAdd? :: s.counter + s.threads[t].n < WORD
  {
    ReachableInv(s);
    forall t: nat | t < |s.threads| && s.threads[t].Popping? ensures s.q != [] {
      SumUpdate(s.threads, t, Idle, Granted);
    }
    forall t: nat | t < |s.threads| && s.threads[t].SigAdd? ensures s.counter + s.threads[t].n < WORD {
      SumUpdate(s.threads, t, Idle, Unsignalled);
    }
  }

  /** Items come out in the order in which they went in, none is lost or duplicated, and the
      items of one call of push are contiguous. */
  lemma FirstInFirstOut<T(!new)>(s: State<T>)
    requires Reachable(s)
    ensures s.popped + s.q == s.pushed
    ensures Flat(s.batches) <= s.pushed
    ensures s.qMutex.Free? ==> s.popped + s.q == Flat(s.batches)
  {
    ReachableInv(s);
  }

  // ---------------------------------------------------------------- what calls return

  /** The value that a step returns from `pop`, if it does. */
  function Out<T>(s: State<T>, step: Step<T>): (xs: seq<T>)
    requires Enabled(s, step)
  {
    if step.Go? && s.threads[step.t].PopUnlock? then [s.threads[step.t].x] else []
  }

  /** The values that calls of `pop` return in a run, in the order of their returns. */
  function Returned<T>(s: State<T>, steps: seq<Step<T>>): (xs: seq<T>)
    requires From(s, steps).Reached?
    decreases |steps|
  {
    if steps == [] then [] else Out(s, steps[0]) + Returned(Do(s, steps[0]), steps[1..])
  }

  /** The value a thread has taken from the queue and is about to return. */
  ghost function Handing<T>(s: State<T>): seq<T> {
    if s.qMutex.By? && s.qMutex.t < |s.threads| && s.threads[s.qMutex.t].PopUnlock? then [s.threads[s.qMutex.t].x]
    else []
  }

  /** The value handed out is the one that was popped last, and by one thread. */
  ghost predicate Handed<T>(s: State<T>, before: seq<T>) { s.popped == before + Handing(s) }

  lemma QueueHanded<T>(s: State<T>, t: nat, before: seq<T>)
    requires Mutexes(s) && Handed(s, before) && Enabled(s, Go(t)) && QueueSide(s.threads[t])
    ensures Handed(DoGo(s, t), before + Out(s, Go(t)))
  {
    assert HoldsQueue(s.threads[t]) <==> s.qMutex == By(t);
    assert before + [] == before;
  }

  lemma SemHanded<T>(s: State<T>, t: nat, before: seq<T>)
    requires Mutexes(s) && Handed(s, before) && Enabled(s, Go(t)) && !QueueSide(s.threads[t])
    ensures Handed(DoGo(s, t), before)
  {
    SemOnly(s, t);
    var s' := DoGo(s, t);
    assert HoldsQueue(s.threads[t]) <==> s.qMutex == By(t);
    assert Handing(s') == Handing(s);
  }

  lemma OtherHanded<T>(s: State<T>, step: Step<T>, before: seq<T>)
    requires Mutexes(s) && Handed(s, before) && Enabled(s, step) && !step.Go?
    ensures Handed(Do(s, step), before)
  {
    assert Handing(Do(s, step)) == Handing(s);
  }

  lemma {:induction false} RunHanded<T>(s: State<T>, steps: seq<Step<T>>, before: seq<T>)
    requires Inv(s) && Handed(s, before) && From(s, steps).Reached?
    ensures Handed(From(s, steps).s, before + Returned(s, steps))
    decreases |steps|
  {
    if steps == [] {
      assert before + [] == before;
    } else {
      StepInv(s, steps[0]);
      StepHanded(s, steps[0], before);
      RunHanded(Do(s, steps[0]), steps[1..], before + Out(s, steps[0]));
      Regroup(before, Out(s, steps[0]), Returned(Do(s, steps[0]), steps[1..]));
    }
  }

  lemma Regroup<T>(a: seq<T>, b: seq<T>, c: seq<T>)
    ensures a + b + c == a + (b + c)
  {
  }

  lemma StepHanded<T>(s: State<T>, step: Step<T>, before: seq<T>)
    requires Mutexes(s) && Handed(s, before) && Enabled(s, step)
    ensures Handed(Do(s, step), before + Out(s, step))
  {
    assert before + [] == before;
    if !step.Go? {
      OtherHanded(s, step, before);
    } else if QueueSide(s.threads[step.t]) {
      QueueHanded(s, step.t, before);
    } else {
      SemHanded(s, step.t, before);
    }
  }

  /** In every run, the values that calls of `pop` have returned, followed by the one being handed
      out and by the queue, are what was pushed, in order; and a thread that is about to return x
      holds the item that left the queue last. */
  lemma ReturnedInOrder<T>(n: nat, steps: seq<Step<T>>)
    requires From(Init<T>(n), steps).Reached?
    ensures var s := From(Init<T>(n), steps).s;
            && Returned(Init<T>(n), steps) + Handing(s) == s.popped
            && Returned(Init<T>(n), steps) + Handing(s) + s.q == s.pushed
            && forall t: nat | t < |s.threads| && s.threads[t].PopUnlock? ::
                 s.popped != [] && s.threads[t].x == s.popped[|s.popped| - 1]
  {
    var s0, s := Init<T>(n), From(Init<T>(n), steps).s;
    InitInv<T>(n);
    RunInv(s0, steps);
    RunHanded(s0, steps, []);
    assert [] + Returned(s0, steps) == Returned(s0, steps);
    forall t: nat | t < |s.threads| && s.threads[t].PopUnlock?
      ensures s.popped != [] && s.threads[t].x == s.popped[|s.popped| - 1]
    {
      assert HoldsQueue(s.threads[t]);
      assert Handing(s) == [s.threads[t].x];
    }
  }

  // ---------------------------------------------------------------- what calls were made

  /** How often push was called with these items in a run. */
  ghost function Calls<T>(steps: seq<Step<T>>, items: seq<T>): nat {
    if steps == [] then 0
    else (if steps[0].CallPush? && steps[0].items == items then 1 else 0) + Calls(steps[1..], items)
  }

  ghost function Count<T>(batches: seq<seq<T>>, items: seq<T>): nat {
    if batches == [] then 0
    else Count(batches[..|batches| - 1], items) + if batches[|batches| - 1] == items then 1 else 0
  }

  /** 1 for a thread in a call of push with these items that has not unlocked the queue. */
  ghost function InPush<T>(items: seq<T>): Pc<T> -> nat {
    (pc: Pc<T>) => if (pc.PushLock? || pc.Pushing?) && pc.items == items then 1 else 0
  }

  ghost function Made<T>(s: State<T>, items: seq<T>): nat {
    Count(s.batches, items) + Sum(s.threads, InPush(items))
  }

  lemma StepMade<T>(s: State<T>, step: Step<T>, items: seq<T>)
    requires Enabled(s, step)
    ensures Made(Do(s, step), items) == Made(s, items) + if step.CallPush? && step.items == items then 1 else 0
  {
    match step
    case CallPush(t, xs) => SumUpdate(s.threads, t, PushLock(xs), InPush(items));
    case CallPop(t) => SumUpdate(s.threads, t, WaitLock, InPush(items));
    case Go(t) => GoMade(s, t, items);
    case Wake(t, u) =>
      SumUpdate(s.threads, u, Woken, InPush(items));
      SumUpdate(s.threads[u := Woken], t, Notify(s.threads[t].n - 1), InPush(items));
    case WakeNobody(t) => SumUpdate(s.threads, t, Notify(s.threads[t].n - 1), InPush(items));
    case Spurious(u) => SumUpdate(s.threads, u, Woken, InPush(items));
  }

  lemma GoMade<T>(s: State<T>, t: nat, items: seq<T>)
    requires Enabled(s, Go(t))
    ensures Made(DoGo(s, t), items) == Made(s, items)
  {
    if s.threads[t].Pushing? {
      PushMade(s, t, items);
    } else {
      OneThread(s, t);
      AwayMade(s, t, items);
      SumUpdate(s.threads, t, DoGo(s, t).threads[t], InPush(items));
    }
  }

  lemma AwayMade<T>(s: State<T>, t: nat, items: seq<T>)
    requires Enabled(s, Go(t)) && !s.threads[t].Pushing?
    ensures DoGo(s, t).batches == s.batches && InPush(items)(DoGo(s, t).threads[t]) == InPush(items)(s.threads[t])
  {
  }

  lemma PushMade<T>(s: State<T>, t: nat, items: seq<T>)
    requires Enabled(s, Go(t)) && s.threads[t].Pushing?
    ensures Made(DoGo(s, t), items) == Made(s, items)
  {
    var xs, i := s.threads[t].items, s.threads[t].i;
    var pc := if i < |xs| then Pushing(xs, i + 1) else SigLock(|xs|);
    assert DoGo(s, t).threads == s.threads[t := pc];
    SumUpdate(s.threads, t, pc, InPush(items));
    assert (s.batches + [xs])[..|s.batches|] == s.batches;
  }

  lemma {:induction false} RunMade<T>(s: State<T>, steps: seq<Step<T>>, items: seq<T>)
    requires From(s, steps).Reached?
    ensures Made(From(s, steps).s, items) == Made(s, items) + Calls(steps, items)
    decreases |steps|
  {
    if steps == [] {
    } else {
      StepMade(s, steps[0], items);
      RunMade(Do(s, steps[0]), steps[1..], items);
    }
  }

  /** In every run, each call of push is in progress or its items are among the batches, and there
      is no batch that no call gave. */
  lemma BatchesAreCalls<T>(n: nat, steps: seq<Step<T>>, items: seq<T>)
    requires From(Init<T>(n), steps).Reached?
    ensures var s := From(Init<T>(n), steps).s;
            Count(s.batches, items) + Sum(s.threads, InPush(items)) == Calls(steps, items)
  {
    RunMade(Init<T>(n), steps, items);
    SumZero(Init<T>(n).threads, InPush(items));
  }

  /** `Flat` puts batches one after another. */
  lemma {:induction false} FlatIs<T>(a: seq<seq<T>>, b: seq<seq<T>>, items: seq<T>)
    ensures Flat(a + b) == Flat(a) + Flat(b) && Flat([items]) == items
  {
    if b == [] {
      assert a + b == a && Flat(a) + [] == Flat(a);
    } else {
      var n := |b| - 1;
      FlatIs(a, b[..n], items);
      assert (a + b)[..|a| + n] == a + b[..n];
      assert Flat(a) + Flat(b[..n]) + b[n] == Flat(a) + (Flat(b[..n]) + b[n]);
    }
    assert [items][..0] == [];
  }

  /** A sleeper never coexists with a positive counter unless some thread is about to signal or
      has woken and is about to test the counter. */
  lemma NoLostWakeup<T(!new)>(s: State<T>) returns (t: nat)
    requires Reachable(s) && SomeoneSleeps(s) && s.counter > 0
    ensures s.counter <= Sum(s.threads, Pending) + Sum(s.threads, Awake)
    ensures t < |s.threads| && (Pending(s.threads[t]) > 0 || Awake(s.threads[t]) > 0)
  {
    ReachableInv(s);
    if Sum(s.threads, Pending) > 0 {
      t := SumPositive(s.threads, Pending);
    } else {
      t := SumPositive(s.threads, Awake);
    }
  }

  ghost predicate Resting<T>(pc: Pc<T>) { pc.Idle? || pc.Sleeping? }

  ghost predicate Quiet<T>(s: State<T>) {
    forall t: nat | t < |s.threads| :: Resting(s.threads[t])
  }

  /** When nothing moves any more, a consumer sleeps only if the queue is empty. */
  lemma QuietMeansServed<T(!new)>(s: State<T>)
    requires Reachable(s) && Quiet(s)
    ensures |s.q| == s.counter
    ensures SomeoneSleeps(s) ==> s.q == []
    ensures s.popped + s.q == Flat(s.batches)
  {
    ReachableInv(s);
    SumZero(s.threads, Granted);
    SumZero(s.threads, Unsignalled);
    SumZero(s.threads, Pending);
    SumZero(s.threads, Awake);
    assert Partial(s) == [];
  }

  /** The steps of calls already made: neither a new call nor a spurious wakeup. */
  predicate Inner<T>(step: Step<T>) { step.Go? || step.Wake? || step.WakeNobody? }

  /** As long as some thread is neither idle nor asleep, a step of a call already made is
      enabled: the locking cannot deadlock. */
  lemma NoDeadlock<T(!new)>(s: State<T>) returns (step: Step<T>)
    requires Reachable(s) && !Quiet(s)
    ensures Inner(step) && Enabled(s, step)
  {
    ReachableInv(s);
    QueueLength(s);
    var t: nat :| t < |s.threads| && !Resting(s.threads[t]);
    var pc := s.threads[t];
    if pc.Notify? && pc.n > 0 {
      if u: nat :| u < |s.threads| && s.threads[u].Sleeping? {
        step := Wake(t, u);
      } else {
        step := WakeNobody(t);
      }
    } else if pc.PushLock? || pc.PopLock? {
      step := Go(if s.qMutex.Free? then t else s.qMutex.t);
    } else if pc.SigLock? || pc.WaitLock? || pc.Woken? {
      step := Go(if s.semMutex.Free? then t else s.semMutex.t);
    } else {
      step := Go(t);
    }
  }

  lemma OneThread<T>(s: State<T>, t: nat)
    requires Enabled(s, Go(t))
    ensures DoGo(s, t).threads == s.threads[t := DoGo(s, t).threads[t]]
  {
  }

  lemma QueueWork<T>(s: State<T>, t: nat)
    requires Enabled(s, Go(t)) && QueueSide(s.threads[t])
    requires s.threads[t].Pushing? ==> s.threads[t].i <= |s.threads[t].items|
    ensures Work(DoGo(s, t).threads[t]) < Work(s.threads[t])
  {
  }

  lemma SemWork<T>(s: State<T>, t: nat)
    requires Enabled(s, Go(t)) && !QueueSide(s.threads[t])
    ensures Work(DoGo(s, t).threads[t]) < Work(s.threads[t])
  {
  }

  lemma GoWork<T>(s: State<T>, t: nat)
    requires History(s) && Enabled(s, Go(t))
    ensures Sum(DoGo(s, t).threads, Work) < Sum(s.threads, Work)
  {
    if QueueSide(s.threads[t]) { QueueWork(s, t); } else { SemWork(s, t); }
    var threads := DoGo(s, t).threads;
    assert threads == s.threads[t := threads[t]] by { OneThread(s, t); }
    SumUpdate(s.threads, t, threads[t], Work);
  }

  /** Every such step uses up work, so between calls only finitely many are taken. */
  lemma StepWorks<T>(s: State<T>, step: Step<T>)
    requires Inv(s) && Enabled(s, step) && Inner(step)
    ensures Sum(Do(s, step).threads, Work) < Sum(s.threads, Work)
  {
    match step
    case Go(t) => GoWork(s, t);
    case Wake(t, u) => WakeWork(s, t, u);
    case WakeNobody(t) => SumUpdate(s.threads, t, Notify(s.threads[t].n - 1), Work);
  }

  lemma WakeWork<T>(s: State<T>, t: nat, u: nat)
    requires Enabled(s, Wake(t, u))
    ensures Sum(Do(s, Wake(t, u)).threads, Work) < Sum(s.threads, Work)
  {
    var pc := Notify(s.threads[t].n - 1);
    SumUpdate(s.threads, u, Woken, Work);
    SumUpdate(s.threads[u := Woken], t, pc, Work);
  }

  lemma {:induction false} InnerRunBound<T>(s: State<T>, steps: seq<Step<T>>)
    requires Inv(s) && From(s, steps).Reached? && forall k | 0 <= k < |steps| :: Inner(steps[k])
    ensures Sum(From(s, steps).s.threads, Work) + |steps| <= Sum(s.threads, Work)
    decreases |steps|
  {
    if steps == [] {
    } else {
      StepWorks(s, steps[0]);
      StepInv(s, steps[0]);
      InnerRunBound(Do(s, steps[0]), steps[1..]);
    }
  }
}
