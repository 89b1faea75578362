/**
  muduo/net/EventLoop.cc: one loop thread, any number of foreign threads queueing functors and
  calling quit, and an eventfd counter. A foreign call is two steps: the change under the mutex
  (or the flag), then the wakeup. Calls from the loop's own thread happen inside its callbacks.
 */
module EventLoop {
  type Tid = nat
  type Functor = nat

  /**
    Check: at while (!quit_). Polling: in poll. Handling: running channel callbacks.
    Calling: callingPendingFunctors_ is set, the swap is next. Running: running the swapped batch.
   */
  datatype Pc = Check | Polling | Handling | Calling | Running | Exited

  datatype State = State(
    pending: seq<Functor>, counter: nat, calling: bool, quit: bool,
    pc: Pc, wakeupActive: bool, batch: seq<Functor>, waking: set<Tid>,
    // history only
    pushed: seq<Functor>, executed: seq<Functor>)

  datatype Step =
    | ForeignPush(t: Tid, f: Functor)
    | ForeignQuit(t: Tid)
    | ForeignWakeup(t: Tid)
    | CheckQuit
    | PollReturns(wakeupReady: bool)
    | HandleWakeup
    | LoopPush(f: Functor)
    | LoopQuit
    | StartCalling
    | SwapFunctors
    | RunFunctor
    | EndCalling

  /** poll may return for any reason; it reports the eventfd only when its counter is positive. */
  predicate Enabled(s: State, step: Step) {
    match step
    case ForeignPush(t, _) => t !in s.waking
    case ForeignQuit(t) => t !in s.waking
    case ForeignWakeup(t) => t in s.waking
    case CheckQuit => s.pc == Check
    case PollReturns(ready) => s.pc == Polling && (ready ==> s.counter > 0)
    case HandleWakeup => s.pc == Handling && s.wakeupActive
    case LoopPush(_) => s.pc in {Handling, Running}
    case LoopQuit => s.pc in {Handling, Running}
    case StartCalling => s.pc == Handling && !s.wakeupActive
    case SwapFunctors => s.pc == Calling
    case RunFunctor => s.pc == Running && s.batch != []
    case EndCalling => s.pc == Running && s.batch == []
  }

  function Apply(s: State, step: Step): State
    requires Enabled(s, step)
  {
    match step
    case ForeignPush(t, f) => s.(pending := s.pending + [f], pushed := s.pushed + [f], waking := s.waking + {t})
    case ForeignQuit(t) => s.(quit := true, waking := s.waking + {t})
    case ForeignWakeup(t) => s.(counter := s.counter + 1, waking := s.waking - {t})
    case CheckQuit => s.(pc := if s.quit then Exited else Polling)
    case PollReturns(ready) => s.(pc := Handling, wakeupActive := ready)
    case HandleWakeup => s.(counter := 0, wakeupActive := false)
    case LoopPush(f) => s.(pending := s.pending + [f], pushed := s.pushed + [f],
                           counter := s.counter + if s.calling then 1 else 0)
    case LoopQuit => s.(quit := true)
    case StartCalling => s.(calling := true, pc := Calling)
    case SwapFunctors => s.(batch := s.pending, pending := [], pc := Running)
    case RunFunctor => s.(executed := s.executed + [s.batch[0]], batch := s.batch[1..])
    case EndCalling => s.(calling := false, pc := Check)
  }

  // ---------- invariant ----------

  /** Someone has made, or is about to make, the eventfd readable. */
  predicate WakeupUnderWay(s: State) { s.counter > 0 || s.waking != {} }

  /** What must hold when loop() is entered: it has just cleared quit_. */
  predicate EntryState(s: State) {
    && s.pc == Check && !s.calling && !s.quit && !s.wakeupActive && s.batch == []
    && s.executed + s.pending == s.pushed
  }

  predicate Inv(s: State) {
    && s.executed + s.batch + s.pending == s.pushed
    && (s.calling <==> s.pc in {Calling, Running})
    && (s.batch != [] ==> s.pc == Running)
    && (s.wakeupActive ==> s.pc == Handling && s.counter > 0)
    && (s.pc in {Check, Polling, Running} && s.pending != [] ==> WakeupUnderWay(s))
    && (s.pc == Polling && s.quit ==> WakeupUnderWay(s))
  }

  lemma StepKeeps(s: State, step: Step)
    requires Inv(s) && Enabled(s, step)
    ensures Inv(Apply(s, step))
  {
    match step {
    case ForeignPush(t, f) => assert s.executed + s.batch + (s.pending + [f]) == s.executed + s.batch + s.pending + [f];
    case LoopPush(f) => assert s.executed + s.batch + (s.pending + [f]) == s.executed + s.batch + s.pending + [f];
    case SwapFunctors => assert s.executed + s.pending + [] == s.executed + [] + s.pending;
    case RunFunctor => assert s.executed + [s.batch[0]] + s.batch[1..] == s.executed + s.batch;
    case ForeignWakeup(t) =>
    case _ =>
    }
  }

  predicate LegalRun(s: State, steps: seq<Step>)
    decreases |steps|
  {
    steps == [] || (Enabled(s, steps[0]) && LegalRun(Apply(s, steps[0]), steps[1..]))
  }

  function Run(s: State, steps: seq<Step>): State
    requires LegalRun(s, steps)
    decreases |steps|
  {
    if steps == [] then s else Run(Apply(s, steps[0]), steps[1..])
  }

  lemma {:induction false} RunKeeps(s: State, steps: seq<Step>)
    requires Inv(s) && LegalRun(s, steps)
    ensures Inv(Run(s, steps))
    decreases |steps|
  {
    if steps != [] {
      StepKeeps(s, steps[0]);
      RunKeeps(Apply(s, steps[0]), steps[1..]);
    }
  }

  // ---------- the claims ----------

  /** No wakeup is lost: a loop about to block has an empty queue, or will be woken. */
  predicate NotStranded(s: State) {
    s.pc == Polling && (s.pending != [] || s.quit) ==> WakeupUnderWay(s)
  }

  lemma NoLostWakeup(s: State, steps: seq<Step>)
    requires EntryState(s) && (s.pending == [] || WakeupUnderWay(s)) && LegalRun(s, steps)
    ensures var t := Run(s, steps);
            NotStranded(t) && t.executed + t.batch + t.pending == t.pushed
  {
    assert s.executed + [] + s.pending == s.executed + s.pending;
    RunKeeps(s, steps);
  }

  lemma StrandingRun(s: State) returns (steps: seq<Step>)
    requires EntryState(s) && s.pending != [] && !WakeupUnderWay(s)
    ensures LegalRun(s, steps) && !NotStranded(Run(s, steps))
  {
    steps := [CheckQuit];
    var t := Apply(s, CheckQuit);
    assert steps[1..] == [] && LegalRun(t, []) && Run(t, []) == t;
  }

  /** The condition on entry is exact: a functor queued from the loop's own thread before loop() is stranded. */
  lemma NoLostWakeupExactly(s: State)
    requires EntryState(s)
    ensures (forall steps :: LegalRun(s, steps) ==> NotStranded(Run(s, steps)))
       <==> (s.pending == [] || WakeupUnderWay(s))
  {
    if s.pending == [] || WakeupUnderWay(s) {
      forall steps | LegalRun(s, steps) ensures NotStranded(Run(s, steps)) {
        NoLostWakeup(s, steps);
      }
    } else {
      var steps := StrandingRun(s);
    }
  }

  /** Once no foreign thread is in the middle of a call, poll has something to return for. */
  lemma PollDoesNotBlock(s: State)
    requires Inv(s) && s.pc == Polling && (s.pending != [] || s.quit) && s.waking == {}
    ensures Enabled(s, PollReturns(true))
  {}

  /** The first n functors pushed have run, or will have by the next time quit_ is checked. */
  predicate Promised(s: State, n: nat) {
    match s.pc
    case Check => n <= |s.executed|
    case Exited => n <= |s.executed|
    case Running => n <= |s.executed| + |s.batch|
    case _ => n <= |s.executed| + |s.pending|
  }

  lemma StepPromises(s: State, step: Step, n: nat)
    requires Inv(s) && Enabled(s, step) && Promised(s, n)
    ensures Promised(Apply(s, step), n) && s.pushed <= Apply(s, step).pushed
  {}

  lemma {:induction false} PromiseKept(s: State, steps: seq<Step>, n: nat)
    requires Inv(s) && LegalRun(s, steps) && Promised(s, n)
    ensures Promised(Run(s, steps), n) && s.pushed <= Run(s, steps).pushed
    decreases |steps|
  {
    hide Inv, Apply, Enabled, Promised;
    if steps != [] {
      StepKeeps(s, steps[0]);
      StepPromises(s, steps[0], n);
      PromiseKept(Apply(s, steps[0]), steps[1..], n);
    }
  }

  /** Each iteration runs everything that was pending when it polled, once and in push order. */
  lemma IterationRunsPending(s: State, steps: seq<Step>)
    requires Inv(s) && s.pc == Polling && LegalRun(s, steps) && Run(s, steps).pc in {Check, Exited}
    ensures s.executed + s.pending <= Run(s, steps).executed
  {
    var n := |s.executed| + |s.pending|;
    PromiseKept(s, steps, n);
    RunKeeps(s, steps);
    var t := Run(s, steps);
    assert s.pushed == s.executed + s.pending;
    assert t.executed <= t.pushed;
    assert t.executed[..n] == t.pushed[..n] == s.pushed;
  }

  // ---------- the class ----------

  /** What the functors of a batch queue while they run, in order. */
  function AllPosts(posts: Functor -> seq<Functor>, batch: seq<Functor>): seq<Functor> {
    if batch == [] then [] else posts(batch[0]) + AllPosts(posts, batch[1..])
  }

  class Loop {
    var pendingFunctors: seq<Functor>
    var wakeupCounter: nat
    var callingPendingFunctors: bool
    var quit: bool
    var functors: seq<Functor>
    ghost var pc: Pc
    ghost var wakeupActive: bool
    ghost var waking: set<Tid>
    ghost var pushed: seq<Functor>
    ghost var executed: seq<Functor>

    ghost function View(): State
      reads this
    {
      State(pendingFunctors, wakeupCounter, callingPendingFunctors, quit, pc, wakeupActive, functors, waking,
            pushed, executed)
    }

    /** loop() up to the first check. */
    constructor ()
      ensures EntryState(View()) && View().pending == []
    {
      pendingFunctors, wakeupCounter, callingPendingFunctors, quit, functors := [], 0, false, false, [];
      pc, wakeupActive, waking, pushed, executed := Check, false, {}, [], [];
    }

    /** The part of queueInLoop under the mutex; the result says whether the caller must wake the loop. */
    method Push(cb: Functor, isInLoopThread: bool, ghost t: Tid) returns (wakeup: bool)
      requires if isInLoopThread then pc in {Handling, Running} else t !in waking
      modifies this
      ensures isInLoopThread ==> wakeup == callingPendingFunctors
      ensures !isInLoopThread ==> wakeup && View() == Apply(old(View()), ForeignPush(t, cb))
      ensures isInLoopThread ==>
                View() == old(View()).(pending := old(pendingFunctors) + [cb], pushed := old(pushed) + [cb])
    {
      pendingFunctors := pendingFunctors + [cb];
      pushed := pushed + [cb];
      if !isInLoopThread {
        waking := waking + {t};
      }
      wakeup := !isInLoopThread || callingPendingFunctors;
    }

    method Wakeup(ghost t: Tid)
      modifies this
      ensures View() == old(View()).(counter := old(wakeupCounter) + 1, waking := old(waking) - {t})
    {
      wakeupCounter := wakeupCounter + 1;
      waking := waking - {t};
    }

    /** queueInLoop called from a callback of the loop's own thread. */
    method QueueInLoopThread(cb: Functor)
      requires Inv(View()) && pc in {Handling, Running}
      modifies this
      ensures View() == Apply(old(View()), LoopPush(cb))
    {
      ghost var nobody: Tid := 0;
      var wakeup := Push(cb, true, nobody);
      if wakeup {
        wakeupCounter := wakeupCounter + 1;
      }
    }

    method HandleRead()
      requires pc == Handling && wakeupActive
      modifies this
      ensures View() == Apply(old(View()), HandleWakeup)
    {
      wakeupCounter, wakeupActive := 0, false;
    }

    /** doPendingFunctors up to the end of its critical section. */
    method TakePendingFunctors()
      requires pc == Handling && !wakeupActive && functors == []
      modifies this
      ensures View() == Apply(Apply(old(View()), StartCalling), SwapFunctors)
    {
      callingPendingFunctors, pc := true, Calling;
      functors, pendingFunctors := pendingFunctors, functors;
      pc := Running;
    }

    /**
      The for loop of doPendingFunctors; posts says what each functor queues while it runs. The batch runs
      once and in order, what it queues waits behind what was pending, and the eventfd is written for each.
     */
    method RunFunctors(posts: Functor -> seq<Functor>)
      requires Inv(View()) && pc == Running
      modifies this
      ensures executed == old(executed) + old(functors) && functors == []
      ensures pendingFunctors == old(pendingFunctors) + AllPosts(posts, old(functors))
      ensures wakeupCounter == old(wakeupCounter) + |AllPosts(posts, old(functors))|
      ensures pc == Check && !callingPendingFunctors && Inv(View())
    {
      ghost var batch := functors;
      while functors != []
        invariant Inv(View()) && pc == Running && callingPendingFunctors
        invariant executed + functors == old(executed) + batch
        invariant pendingFunctors + AllPosts(posts, functors) == old(pendingFunctors) + AllPosts(posts, batch)
        invariant wakeupCounter + |AllPosts(posts, functors)| == old(wakeupCounter) + |AllPosts(posts, batch)|
        decreases |functors|
      {
        RunOne(posts);
      }
      StepKeeps(View(), EndCalling);
      callingPendingFunctors, pc := false, Check;
    }

    /** One functor of the batch, with the calls of queueInLoop it makes. */
    method RunOne(posts: Functor -> seq<Functor>)
      requires Inv(View()) && pc == Running && functors != []
      modifies this
      ensures Inv(View()) && pc == Running
      ensures executed == old(executed) + [old(functors)[0]] && functors == old(functors)[1..]
      ensures pendingFunctors == old(pendingFunctors) + posts(old(functors)[0])
      ensures wakeupCounter == old(wakeupCounter) + |posts(old(functors)[0])|
    {
      StepKeeps(View(), RunFunctor);
      var queued := posts(functors[0]);
      executed, functors := executed + [functors[0]], functors[1..];
      var i := 0;
      while i < |queued|
        invariant i <= |queued| && Inv(View()) && pc == Running
        invariant executed == old(executed) + [old(functors)[0]] && functors == old(functors)[1..]
        invariant pendingFunctors == old(pendingFunctors) + queued[..i]
        invariant wakeupCounter == old(wakeupCounter) + i
      {
        StepKeeps(View(), LoopPush(queued[i]));
        QueueInLoopThread(queued[i]);
        assert queued[..i + 1] == queued[..i] + [queued[i]];
        i := i + 1;
      }
      assert queued[..i] == queued;
    }
  }
}
