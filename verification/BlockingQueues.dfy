/**
  The condition-variable protocols of muduo/base/ThreadPool.cc, BoundedBlockingQueue.h and BlockingQueue.h.
  One step is what a thread does between acquiring the mutex and either releasing it or waiting on a
  condition. A thread whose wait has returned (signalled or spuriously) but that has not yet got the
  mutex back is "awake".
 */
module BlockingQueues {
  import opened Wrappers

  type Tid = nat

  datatype State<T> = State(
    queue: seq<T>, bound: Option<nat>, running: bool,
    waitingTake: set<Tid>, awakeTake: set<Tid>,
    waitingPut: set<Tid>, awakePut: set<Tid>, item: map<Tid, T>,
    // history only
    pushed: seq<T>, taken: seq<T>)

  function Initial<T>(bound: Option<nat>): State<T> {
    State([], bound, true, {}, {}, {}, {}, map[], [], [])
  }

  predicate Full<T>(s: State<T>) { s.bound.Some? && |s.queue| >= s.bound.value }

  ghost predicate Idle<T>(s: State<T>, t: Tid) {
    t !in s.waitingTake && t !in s.awakeTake && t !in s.waitingPut && t !in s.awakePut
  }

  /** notify(): one waiter, chosen by the system, wakes up; nothing happens when there is none. */
  predicate CanNotify(waiting: set<Tid>, pick: Option<Tid>) {
    if waiting == {} then pick.None? else pick.Some? && pick.value in waiting
  }

  function Picked(pick: Option<Tid>): set<Tid> { if pick.Some? then {pick.value} else {} }

  /** ThreadPool::run and put: wait when full, give up when stopped, otherwise enqueue and notify. */
  function PutStep<T>(s: State<T>, t: Tid, x: T, pick: Option<Tid>): State<T> {
    var r := s.(awakePut := s.awakePut - {t}, item := s.item - {t});
    if Full(s) && s.running then r.(waitingPut := s.waitingPut + {t}, item := s.item[t := x])
    else if !s.running then r
    else r.(queue := s.queue + [x], pushed := s.pushed + [x],
            waitingTake := s.waitingTake - Picked(pick), awakeTake := s.awakeTake + Picked(pick))
  }

  /** take: wait when empty, otherwise dequeue and notify a producer if the queue is bounded. */
  function TakeStep<T>(s: State<T>, t: Tid, pick: Option<Tid>): State<T> {
    var r := s.(awakeTake := s.awakeTake - {t});
    if s.queue == [] then
      if s.running then r.(waitingTake := s.waitingTake + {t}) else r
    else
      var q := r.(queue := s.queue[1..], taken := s.taken + [s.queue[0]]);
      if s.bound.Some?
      then q.(waitingPut := s.waitingPut - Picked(pick), awakePut := s.awakePut + Picked(pick))
      else q
  }

  function DrainStep<T>(s: State<T>): State<T> { s.(queue := [], taken := s.taken + s.queue) }

  function SpuriousStep<T>(s: State<T>, t: Tid): State<T> {
    if t in s.waitingTake then s.(waitingTake := s.waitingTake - {t}, awakeTake := s.awakeTake + {t})
    else s.(waitingPut := s.waitingPut - {t}, awakePut := s.awakePut + {t})
  }

  function StopStep<T>(s: State<T>): State<T> {
    s.(running := false,
       waitingTake := {}, awakeTake := s.awakeTake + s.waitingTake,
       waitingPut := {}, awakePut := s.awakePut + s.waitingPut)
  }

  datatype Step<T> =
    | Put(t: Tid, x: T, pick: Option<Tid>)
    | Take(t: Tid, pick: Option<Tid>)
    | Drain
    | Spurious(t: Tid)
    | Stop

  ghost predicate Enabled<T>(s: State<T>, step: Step<T>) {
    match step
    case Put(t, x, pick) =>
      (Idle(s, t) || (t in s.awakePut && t in s.item && s.item[t] == x)) && CanNotify(s.waitingTake, pick)
    case Take(t, pick) => (Idle(s, t) || t in s.awakeTake) && CanNotify(s.waitingPut, pick)
    case Drain => s.bound.None?
    case Spurious(t) => t in s.waitingTake || t in s.waitingPut
    case Stop => true
  }

  ghost function Apply<T>(s: State<T>, step: Step<T>): State<T>
    requires Enabled(s, step)
  {
    match step
    case Put(t, x, pick) => PutStep(s, t, x, pick)
    case Take(t, pick) => TakeStep(s, t, pick)
    case Drain => DrainStep(s)
    case Spurious(t) => SpuriousStep(s, t)
    case Stop => StopStep(s)
  }

  // ---------- the invariant ----------

  predicate Separate<T>(s: State<T>) {
    && s.waitingTake !! s.awakeTake && s.waitingPut !! s.awakePut
    && s.waitingTake !! s.waitingPut && s.waitingTake !! s.awakePut
    && s.awakeTake !! s.waitingPut && s.awakeTake !! s.awakePut
    && s.waitingPut + s.awakePut <= s.item.Keys
  }

  /** What is in the queue was put, has not been taken, and is in order. */
  ghost predicate Fifo<T>(s: State<T>) { s.pushed == s.taken + s.queue }

  predicate WithinBound<T>(s: State<T>) { s.bound.Some? ==> |s.queue| <= s.bound.value }

  /** While a consumer sleeps, every queued item has a consumer on its way to it. */
  predicate ConsumersNotStranded<T>(s: State<T>) {
    s.running && s.waitingTake != {} ==> |s.queue| <= |s.awakeTake|
  }

  /** While a producer sleeps, every free slot has a producer on its way to it. */
  predicate ProducersNotStranded<T>(s: State<T>) {
    s.running && s.waitingPut != {} ==> s.bound.Some? && s.bound.value - |s.queue| <= |s.awakePut|
  }

  predicate NobodyWaitsAfterStop<T>(s: State<T>) {
    !s.running ==> s.waitingTake == {} && s.waitingPut == {}
  }

  ghost predicate Bounded<T>(s: State<T>) {
    && Fifo(s) && WithinBound(s) && NobodyWaitsAfterStop(s)
    && ConsumersNotStranded(s) && ProducersNotStranded(s)
  }

  ghost predicate Inv<T>(s: State<T>) { Separate(s) && Bounded(s) }

  lemma PickedCount(awake: set<Tid>, waiting: set<Tid>, pick: Option<Tid>)
    requires awake !! waiting && CanNotify(waiting, pick)
    ensures waiting != {} ==> |awake + Picked(pick)| == |awake| + 1
    ensures waiting == {} ==> awake + Picked(pick) == awake && waiting - Picked(pick) == {}
    ensures |awake + Picked(pick)| >= |awake|
  {
    if waiting != {} {
      assert pick.value !in awake;
    }
  }

  lemma Removed(awake: set<Tid>, t: Tid)
    ensures |awake - {t}| == if t in awake then |awake| - 1 else |awake|
  {
    if t !in awake {
      assert awake - {t} == awake;
    }
  }

  lemma PutSeparate<T>(s: State<T>, t: Tid, x: T, pick: Option<Tid>)
    requires Separate(s) && Enabled(s, Put(t, x, pick))
    ensures Separate(PutStep(s, t, x, pick))
  {}

  lemma EnqueueBounded<T>(s: State<T>, t: Tid, x: T, pick: Option<Tid>)
    requires Inv(s) && CanNotify(s.waitingTake, pick) && s.running && !Full(s)
    ensures Bounded(PutStep(s, t, x, pick))
  {
    var r := PutStep(s, t, x, pick);
    PickedCount(s.awakeTake, s.waitingTake, pick);
    Removed(s.awakePut, t);
    hide Separate, Picked;
    assert Fifo(r) by {
      assert s.taken + s.queue + [x] == s.taken + (s.queue + [x]);
    }
    assert ConsumersNotStranded(r) && ProducersNotStranded(r);
  }

  lemma PutBounded<T>(s: State<T>, t: Tid, x: T, pick: Option<Tid>)
    requires Inv(s) && Enabled(s, Put(t, x, pick))
    ensures Bounded(PutStep(s, t, x, pick))
  {
    if s.running && !Full(s) {
      EnqueueBounded(s, t, x, pick);
    } else {
      hide Separate, Picked;
    }
  }

  lemma TakeSeparate<T>(s: State<T>, t: Tid, pick: Option<Tid>)
    requires Separate(s) && Enabled(s, Take(t, pick))
    ensures Separate(TakeStep(s, t, pick))
  {}

  lemma TakeBounded<T>(s: State<T>, t: Tid, pick: Option<Tid>)
    requires Inv(s) && Enabled(s, Take(t, pick))
    ensures Bounded(TakeStep(s, t, pick))
  {
    PickedCount(s.awakePut, s.waitingPut, pick);
    Removed(s.awakeTake, t);
    hide Separate, Picked, Idle;
  }

  lemma SpuriousSeparate<T>(s: State<T>, t: Tid)
    requires Separate(s) && (t in s.waitingTake || t in s.waitingPut)
    ensures Separate(SpuriousStep(s, t))
  {}

  lemma SpuriousBounded<T>(s: State<T>, t: Tid)
    requires Inv(s) && (t in s.waitingTake || t in s.waitingPut)
    ensures Bounded(SpuriousStep(s, t))
  {
    assert t in s.waitingTake ==> |s.awakeTake + {t}| == |s.awakeTake| + 1;
    assert t !in s.waitingTake ==> |s.awakePut + {t}| == |s.awakePut| + 1;
    hide Separate;
  }

  lemma StepKeeps<T>(s: State<T>, step: Step<T>)
    requires Inv(s) && Enabled(s, step)
    ensures Inv(Apply(s, step))
  {
    match step
    case Put(t, x, pick) => PutSeparate(s, t, x, pick); PutBounded(s, t, x, pick);
    case Take(t, pick) => TakeSeparate(s, t, pick); TakeBounded(s, t, pick);
    case Drain =>
    case Spurious(t) => SpuriousSeparate(s, t); SpuriousBounded(s, t);
    case Stop =>
  }

  // ---------- every run ----------

  ghost predicate LegalRun<T>(s: State<T>, steps: seq<Step<T>>)
    decreases |steps|
  {
    steps == [] || (Enabled(s, steps[0]) && LegalRun(Apply(s, steps[0]), steps[1..]))
  }

  ghost function Run<T>(s: State<T>, steps: seq<Step<T>>): State<T>
    requires LegalRun(s, steps)
    decreases |steps|
  {
    if steps == [] then s else Run(Apply(s, steps[0]), steps[1..])
  }

  lemma {:induction false} RunKeeps<T>(s: State<T>, steps: seq<Step<T>>)
    requires Inv(s) && LegalRun(s, steps)
    ensures Inv(Run(s, steps))
    decreases |steps|
  {
    if steps != [] {
      StepKeeps(s, steps[0]);
      RunKeeps(Apply(s, steps[0]), steps[1..]);
    }
  }

  /** The protocol, over any interleaving with spurious wakeups and for any bound. */
  lemma Protocol<T>(bound: Option<nat>, steps: seq<Step<T>>)
    requires LegalRun(Initial<T>(bound), steps)
    ensures var s := Run(Initial<T>(bound), steps);
            && s.pushed == s.taken + s.queue
            && (s.bound.Some? ==> |s.queue| <= s.bound.value)
            && (s.running && s.waitingTake != {} ==> |s.queue| <= |s.awakeTake|)
            && (s.running && s.waitingPut != {} ==> s.bound.Some? && s.bound.value - |s.queue| <= |s.awakePut|)
            && (!s.running ==> s.waitingTake == {} && s.waitingPut == {})
  {
    RunKeeps(Initial<T>(bound), steps);
  }

  /** After stop nothing is enqueued any more, and what is taken is still what was put, in order. */
  lemma {:induction false} AfterStop<T>(s: State<T>, steps: seq<Step<T>>)
    requires Inv(s) && !s.running && LegalRun(s, steps)
    ensures var r := Run(s, steps);
            !r.running && r.pushed == s.pushed && s.taken <= r.taken && r.waitingTake == {} && r.waitingPut == {}
    decreases |steps|
  {
    if steps != [] {
      StepKeeps(s, steps[0]);
      AfterStop(Apply(s, steps[0]), steps[1..]);
    }
  }

  // ---------- the classes ----------

  datatype Outcome<T> = Waits | Rejected | Accepted | Got(x: T) | Nothing | RanInline

  class ThreadPool<T> {
    const maxQueueSize: nat
    var numThreads: nat
    var running: bool
    var queue: seq<T>
    ghost var waitingTake: set<Tid>
    ghost var awakeTake: set<Tid>
    ghost var waitingPut: set<Tid>
    ghost var awakePut: set<Tid>
    ghost var item: map<Tid, T>
    ghost var pushed: seq<T>
    ghost var taken: seq<T>

    ghost function View(): State<T>
      reads this
    {
      State(queue, if maxQueueSize == 0 then None else Some(maxQueueSize), running,
            waitingTake, awakeTake, waitingPut, awakePut, item, pushed, taken)
    }

    constructor (maxQueueSize: nat, numThreads: nat)
      ensures View() == Initial(if maxQueueSize == 0 then None else Some(maxQueueSize))
      ensures this.numThreads == numThreads
    {
      this.maxQueueSize, this.numThreads, running, queue := maxQueueSize, numThreads, true, [];
      waitingTake, awakeTake, waitingPut, awakePut := {}, {}, {}, {};
      item, pushed, taken := map[], [], [];
    }

    predicate IsFull()
      reads this
      ensures IsFull() == Full(View())
    {
      maxQueueSize > 0 && |queue| >= maxQueueSize
    }

    /** One passage of run through the mutex; the caller comes back after its wait. */
    method Run(ghost t: Tid, task: T, ghost pick: Option<Tid>) returns (r: Outcome<T>)
      requires Enabled(View(), Put(t, task, pick))
      modifies this
      ensures numThreads == old(numThreads)
      ensures if numThreads == 0 then r == RanInline && View() == old(View())
              else View() == PutStep(old(View()), t, task, pick)
    {
      if numThreads == 0 {
        return RanInline;
      }
      awakePut, item := awakePut - {t}, item - {t};
      if IsFull() && running {
        waitingPut, item := waitingPut + {t}, item[t := task];
        return Waits;
      }
      if !running {
        return Rejected;
      }
      assert !IsFull();
      queue := queue + [task];
      pushed := pushed + [task];
      waitingTake, awakeTake := waitingTake - Picked(pick), awakeTake + Picked(pick);
      r := Accepted;
    }

    method Take(ghost t: Tid, ghost pick: Option<Tid>) returns (r: Outcome<T>)
      requires Enabled(View(), Step.Take(t, pick))
      modifies this
      ensures View() == TakeStep(old(View()), t, pick)
      ensures r == if old(queue) != [] then Got(old(queue)[0]) else if old(running) then Waits else Nothing
    {
      awakeTake := awakeTake - {t};
      if queue == [] && running {
        waitingTake := waitingTake + {t};
        return Waits;
      }
      r := Nothing;
      if queue != [] {
        r := Got(queue[0]);
        taken := taken + [queue[0]];
        queue := queue[1..];
        if maxQueueSize > 0 {
          waitingPut, awakePut := waitingPut - Picked(pick), awakePut + Picked(pick);
        }
      }
    }

    method Stop()
      modifies this
      ensures View() == StopStep(old(View()))
      ensures !running && queue == old(queue) && waitingTake == {} && waitingPut == {}
    {
      running := false;
      waitingTake, awakeTake := {}, awakeTake + waitingTake;
      waitingPut, awakePut := {}, awakePut + waitingPut;
    }
  }

  /** capacity None is BlockingQueue, Some(n) is BoundedBlockingQueue; neither can be stopped. */
  class BlockingQueue<T> {
    const capacity: Option<nat>
    var queue: seq<T>
    ghost var waitingTake: set<Tid>
    ghost var awakeTake: set<Tid>
    ghost var waitingPut: set<Tid>
    ghost var awakePut: set<Tid>
    ghost var item: map<Tid, T>
    ghost var pushed: seq<T>
    ghost var taken: seq<T>

    ghost function View(): State<T>
      reads this
    {
      State(queue, capacity, true, waitingTake, awakeTake, waitingPut, awakePut, item, pushed, taken)
    }

    constructor (capacity: Option<nat>)
      ensures View() == Initial(capacity)
    {
      this.capacity, queue := capacity, [];
      waitingTake, awakeTake, waitingPut, awakePut := {}, {}, {}, {};
      item, pushed, taken := map[], [], [];
    }

    method Put(ghost t: Tid, x: T, ghost pick: Option<Tid>) returns (r: Outcome<T>)
      requires Enabled(View(), Step.Put(t, x, pick))
      modifies this
      ensures View() == PutStep(old(View()), t, x, pick)
      ensures r == if capacity.Some? && |old(queue)| >= capacity.value then Waits else Accepted
    {
      awakePut, item := awakePut - {t}, item - {t};
      if capacity.Some? && |queue| >= capacity.value {
        waitingPut, item := waitingPut + {t}, item[t := x];
        return Waits;
      }
      queue := queue + [x];
      pushed := pushed + [x];
      waitingTake, awakeTake := waitingTake - Picked(pick), awakeTake + Picked(pick);
      r := Accepted;
    }

    method Take(ghost t: Tid, ghost pick: Option<Tid>) returns (r: Outcome<T>)
      requires Enabled(View(), Step.Take(t, pick))
      modifies this
      ensures View() == TakeStep(old(View()), t, pick)
      ensures r == if old(queue) == [] then Waits else Got(old(queue)[0])
    {
      awakeTake := awakeTake - {t};
      if queue == [] {
        waitingTake := waitingTake + {t};
        return Waits;
      }
      r := Got(queue[0]);
      taken := taken + [queue[0]];
      queue := queue[1..];
      if capacity.Some? {
        waitingPut, awakePut := waitingPut - Picked(pick), awakePut + Picked(pick);
      }
    }

    method Drain() returns (all: seq<T>)
      requires capacity.None?
      modifies this
      ensures View() == DrainStep(old(View()))
      ensures all == old(queue) && queue == []
    {
      all := queue;
      queue, taken := [], taken + queue;
    }
  }
}
