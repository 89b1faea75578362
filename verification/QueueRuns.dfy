/**
  Whole runs of the queues: what was put in comes out in order, who waits and who does not, and that stop
  stops the pool for good.
 */
module QueueRuns {
  import opened Wrappers
  import opened BlockingQueues

  /** What a step enqueues: the item of a put that finds the queue running and a slot free. */
  ghost function In<T>(s: State<T>, step: Step<T>): seq<T> {
    if step.Put? && s.running && (s.bound.Some? ==> |s.queue| < s.bound.value) then [step.x] else []
  }

  /** What a step hands out: the front of the queue, or all of it. */
  ghost function Out<T>(s: State<T>, step: Step<T>): seq<T> {
    if step.Take? && s.queue != [] then [s.queue[0]] else if step.Drain? then s.queue else []
  }

  ghost function AllIn<T>(s: State<T>, steps: seq<Step<T>>): seq<T>
    requires LegalRun(s, steps)
    decreases |steps|
  {
    if steps == [] then [] else In(s, steps[0]) + AllIn(Apply(s, steps[0]), steps[1..])
  }

  ghost function AllOut<T>(s: State<T>, steps: seq<Step<T>>): seq<T>
    requires LegalRun(s, steps)
    decreases |steps|
  {
    if steps == [] then [] else Out(s, steps[0]) + AllOut(Apply(s, steps[0]), steps[1..])
  }

  lemma StepMoves<T>(s: State<T>, step: Step<T>)
    requires Enabled(s, step)
    ensures s.queue + In(s, step) == Out(s, step) + Apply(s, step).queue
  {
    hide PutStep, TakeStep;
    assert s.queue + [] == s.queue && [] + s.queue == s.queue;
    match step
    case Put(t, x, pick) => PutMoves(s, t, x, pick);
    case Take(t, pick) => TakeMoves(s, t, pick);
    case _ =>
  }

  lemma PutMoves<T>(s: State<T>, t: Tid, x: T, pick: Option<Tid>)
    ensures s.queue + In(s, Put(t, x, pick)) == PutStep(s, t, x, pick).queue
  {
    assert s.queue + [] == s.queue;
  }

  lemma TakeMoves<T>(s: State<T>, t: Tid, pick: Option<Tid>)
    ensures s.queue == Out(s, Take(t, pick)) + TakeStep(s, t, pick).queue
  {
    if s.queue != [] {
      assert [s.queue[0]] + s.queue[1..] == s.queue;
    }
  }

  /** First in, first out, at most once: what was in the queue and what came in is what came out and what is left. */
  lemma {:induction false} InOrder<T>(s: State<T>, steps: seq<Step<T>>)
    requires LegalRun(s, steps)
    ensures s.queue + AllIn(s, steps) == AllOut(s, steps) + Run(s, steps).queue
    decreases |steps|
  {
    hide Enabled, Apply, In, Out;
    if steps == [] {
      assert s.queue + [] == [] + s.queue;
    } else {
      var t := Apply(s, steps[0]);
      StepMoves(s, steps[0]);
      InOrder(t, steps[1..]);
      Chained(s.queue, In(s, steps[0]), AllIn(t, steps[1..]), Out(s, steps[0]), t.queue, AllOut(t, steps[1..]),
              Run(s, steps).queue);
    }
  }

  lemma Chained<T>(q: seq<T>, a: seq<T>, as': seq<T>, b: seq<T>, r: seq<T>, bs: seq<T>, z: seq<T>)
    requires q + a == b + r && r + as' == bs + z
    ensures q + (a + as') == (b + bs) + z
  {
    assert q + (a + as') == (q + a) + as';
    assert (b + r) + as' == b + (r + as');
    assert b + (bs + z) == (b + bs) + z;
  }

  // ---------- who waits ----------

  /** A put waits exactly if the queue is full and running, keeping its item; stopped, it gives up. */
  lemma PutExactly<T>(s: State<T>, t: Tid, x: T, pick: Option<Tid>)
    requires Inv(s) && Enabled(s, Put(t, x, pick))
    ensures var r := Apply(s, Put(t, x, pick));
            var full := s.bound.Some? && |s.queue| >= s.bound.value;
            && r.queue == (if s.running && !full then s.queue + [x] else s.queue)
            && r.waitingPut == (if s.running && full then s.waitingPut + {t} else s.waitingPut)
            && (s.running && full ==> t in r.item && r.item[t] == x)
            && t !in r.awakePut && r.running == s.running
            && r.waitingTake ==
               (if s.running && !full && pick.Some? then s.waitingTake - {pick.value} else s.waitingTake)
            && r.awakeTake == (if s.running && !full && pick.Some? then s.awakeTake + {pick.value} else s.awakeTake)
  {
    hide Bounded;
  }

  /** A take waits exactly if the queue is empty and running; it signals a producer if the queue is bounded. */
  lemma TakeExactly<T>(s: State<T>, t: Tid, pick: Option<Tid>)
    requires Inv(s) && Enabled(s, Take(t, pick))
    ensures var r := Apply(s, Take(t, pick));
            && r.queue == (if s.queue == [] then [] else s.queue[1..])
            && r.waitingTake == (if s.queue == [] && s.running then s.waitingTake + {t} else s.waitingTake)
            && t !in r.awakeTake && r.running == s.running
            && (s.queue != [] && s.bound.Some? && pick.Some? ==>
                  r.waitingPut == s.waitingPut - {pick.value} && r.awakePut == s.awakePut + {pick.value})
            && (s.queue == [] || s.bound.None? || pick.None? ==>
                  r.waitingPut == s.waitingPut && r.awakePut == s.awakePut)
  {
    hide Bounded;
  }

  /** stop: nobody stays asleep, and the flag is down. */
  lemma StopExactly<T>(s: State<T>)
    ensures var r := Apply(s, Stop);
            && !r.running && r.queue == s.queue && r.waitingTake == {} && r.waitingPut == {}
            && r.awakeTake == s.awakeTake + s.waitingTake && r.awakePut == s.awakePut + s.waitingPut
  {}

  // ---------- stop, over a run ----------

  lemma {:induction false} Prefix<T>(s: State<T>, steps: seq<Step<T>>, k: nat)
    requires Inv(s) && LegalRun(s, steps) && k <= |steps|
    ensures LegalRun(s, steps[..k]) && Inv(Run(s, steps[..k])) && LegalRun(Run(s, steps[..k]), steps[k..])
    ensures Run(s, steps) == Run(Run(s, steps[..k]), steps[k..])
    decreases k
  {
    hide Enabled, Apply, Inv;
    if k == 0 {
      assert steps[..0] == [] && steps[0..] == steps;
    } else {
      StepKeeps(s, steps[0]);
      Prefix(Apply(s, steps[0]), steps[1..], k - 1);
      assert steps[..k][1..] == steps[1..][..k - 1] && steps[k..] == steps[1..][k - 1..];
    }
  }

  /**
    After a stop anywhere in a run the pool stays stopped, nobody sleeps, and nothing is enqueued any more:
    what is left only comes out.
   */
  lemma StopStops<T>(bound: Option<nat>, steps: seq<Step<T>>, k: nat)
    requires LegalRun(Initial<T>(bound), steps) && k < |steps| && steps[k].Stop?
    ensures LegalRun(Initial<T>(bound), steps[..k])
    ensures var atStop := Run(Initial<T>(bound), steps[..k]);
            var end := Run(Initial<T>(bound), steps);
            && !end.running && end.waitingTake == {} && end.waitingPut == {}
            && end.pushed == atStop.pushed
            && exists n :: 0 <= n <= |atStop.queue| && end.queue == atStop.queue[n..]
  {
    var s := Initial<T>(bound);
    Prefix(s, steps, k);
    var u := Run(s, steps[..k]);
    var v := Apply(u, Stop);
    assert steps[k..][0] == Stop && steps[k..][1..] == steps[k + 1..];
    StopExactly(u);
    StepKeeps(u, Stop);
    hide Inv, Enabled, Apply;
    AfterStop(v, steps[k + 1..]);
    var n := OnlyOut(v, steps[k + 1..]);
    assert Run(s, steps).queue == u.queue[n..];
  }

  lemma {:induction false} OnlyOut<T>(s: State<T>, steps: seq<Step<T>>) returns (n: nat)
    requires Inv(s) && !s.running && LegalRun(s, steps)
    ensures n <= |s.queue| && Run(s, steps).queue == s.queue[n..]
    decreases |steps|
  {
    if steps == [] {
      n := 0;
      assert s.queue[0..] == s.queue;
    } else {
      var t := Apply(s, steps[0]);
      StepKeeps(s, steps[0]);
      StepMoves(s, steps[0]);
      var first := |Out(s, steps[0])|;
      assert s.queue + [] == s.queue;
      assert t.queue == s.queue[first..];
      assert !t.running;
      var rest := OnlyOut(t, steps[1..]);
      n := first + rest;
      assert s.queue[first..][rest..] == s.queue[n..];
    }
  }
}
