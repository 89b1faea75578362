/**
  Whole runs of an event loop, told by the calls made to it: every functor queued is accounted for, the
  eventfd counts the wakeups, and quit ends the loop.
 */
module LoopRuns {
  import opened EventLoop

  /** The functors given to queueInLoop, from whatever thread, in lock order. */
  function Queued(steps: seq<Step>): seq<Functor> {
    if steps == [] then []
    else (if steps[0].ForeignPush? || steps[0].LoopPush? then [steps[0].f] else []) + Queued(steps[1..])
  }

  lemma StepPushes(s: State, step: Step)
    requires Enabled(s, step)
    ensures Apply(s, step).pushed == s.pushed + if step.ForeignPush? || step.LoopPush? then [step.f] else []
  {
    assert s.pushed + [] == s.pushed;
  }

  lemma {:induction false} RunPushes(s: State, steps: seq<Step>)
    requires LegalRun(s, steps)
    ensures Run(s, steps).pushed == s.pushed + Queued(steps)
    decreases |steps|
  {
    if steps == [] {
      assert s.pushed + [] == s.pushed;
    } else {
      StepPushes(s, steps[0]);
      hide Apply, Enabled;
      RunPushes(Apply(s, steps[0]), steps[1..]);
      var first := if steps[0].ForeignPush? || steps[0].LoopPush? then [steps[0].f] else [];
      assert s.pushed + (first + Queued(steps[1..])) == (s.pushed + first) + Queued(steps[1..]);
    }
  }

  /** Exactly once and in order: what has run, the rest of the batch and what is pending is what was queued. */
  lemma EveryFunctor(s: State, steps: seq<Step>)
    requires EntryState(s) && (s.pending == [] || WakeupUnderWay(s)) && LegalRun(s, steps)
    ensures var t := Run(s, steps);
            t.executed + t.batch + t.pending == s.executed + s.pending + Queued(steps)
  {
    NoLostWakeup(s, steps);
    RunPushes(s, steps);
    hide Run, LegalRun;
  }

  /** A wakeup adds one to the eventfd, so does a push of the loop thread while functors run; reading it takes all. */
  lemma CounterExactly(s: State, step: Step)
    requires Inv(s) && Enabled(s, step)
    ensures Apply(s, step).counter ==
            if step.ForeignWakeup? || (step.LoopPush? && s.pc == Running) then s.counter + 1
            else if step.HandleWakeup? then 0
            else s.counter
  {}

  /** A foreign call leaves its thread due to wake the loop; the wakeup settles that. */
  lemma WakingExactly(s: State, step: Step)
    requires Enabled(s, step)
    ensures Apply(s, step).waking ==
            if step.ForeignPush? || step.ForeignQuit? then s.waking + {step.t}
            else if step.ForeignWakeup? then s.waking - {step.t}
            else s.waking
  {}

  /** A functor that runs is the next of the batch; a swap takes all that is pending. */
  lemma FunctorsExactly(s: State, step: Step)
    requires Inv(s) && Enabled(s, step)
    ensures var t := Apply(s, step);
            && (step.RunFunctor? ==> t.executed == s.executed + [s.batch[0]] && t.batch == s.batch[1..])
            && (step.SwapFunctors? ==> t.batch == s.pending && t.pending == [])
            && (!step.RunFunctor? ==> t.executed == s.executed)
            && (step.ForeignPush? || step.LoopPush? ==> t.pending == s.pending + [step.f])
  {}

  // ---------- quit ----------

  /** quit sets the flag, from any thread; nothing ever clears it. */
  lemma QuitExactly(s: State, step: Step)
    requires Enabled(s, step)
    ensures Apply(s, step).quit == (s.quit || step.ForeignQuit? || step.LoopQuit?)
    ensures step.CheckQuit? ==> Apply(s, step).pc == (if s.quit then Exited else Polling)
    ensures Apply(s, step).pc == Exited <==> s.pc == Exited || (step.CheckQuit? && s.quit)
  {}

  /** After quit the loop ends at its next check and never polls again. */
  lemma {:induction false} QuitEnds(s: State, steps: seq<Step>)
    requires s.quit && LegalRun(s, steps)
    ensures var t := Run(s, steps);
            && t.quit
            && (CheckQuit in steps ==> t.pc == Exited)
            && (s.pc == Exited ==> t.pc == Exited)
            && (s.pc != Polling ==> t.pc != Polling)
    decreases |steps|
  {
    if steps != [] {
      QuitExactly(s, steps[0]);
      if s.pc != Polling {
        OnlyCheckPolls(s, steps[0]);
      }
      hide Apply, Enabled;
      QuitEnds(Apply(s, steps[0]), steps[1..]);
    }
  }

  lemma OnlyCheckPolls(s: State, step: Step)
    requires Enabled(s, step) && s.quit && s.pc != Polling
    ensures Apply(s, step).pc != Polling
  {}

  /** So a run that calls quit and checks the flag afterwards is over. */
  lemma QuitIsHeeded(s: State, before: seq<Step>, quit: Step, after: seq<Step>)
    requires quit.ForeignQuit? || quit.LoopQuit?
    requires LegalRun(s, before) && Enabled(Run(s, before), quit) && LegalRun(Apply(Run(s, before), quit), after)
    ensures CheckQuit in after ==> Run(Apply(Run(s, before), quit), after).pc == Exited
  {
    QuitExactly(Run(s, before), quit);
    hide Apply, Enabled;
    QuitEnds(Apply(Run(s, before), quit), after);
  }
}
