/**
  What a run of the timer queue does about time: when the timerfd is set and to what, and when the timers of
  a batch come back.
 */
module TimerArming {
  import opened Wrappers
  import opened TimerList
  import opened TimerQueue

  // ---------- the timerfd ----------

  function Later(a: int, b: int): int { if a < b then b else a }

  /** The timerfd has just been set for the first timer, but to no less than 100 microseconds from now. */
  predicate JustArmed(s: State) {
    s.timers != [] && s.armed == Some(Arm(s.clock, Later(s.timers[0].when, s.clock + 100)))
  }

  /** addTimerInLoop sets the timerfd exactly if the timer is the new first one. */
  lemma AddArms(s: State, addr: nat)
    requires Inv(s) && Enabled(s, AddStep(addr))
    ensures var t := Apply(s, AddStep(addr));
            && Entry(s.heap[addr].expiration, addr) in t.timers
            && ActiveTimer(addr, s.heap[addr].sequence) in t.active
            && (if s.timers == [] || s.heap[addr].expiration < s.timers[0].when
                then JustArmed(t) && t.timers[0].when == s.heap[addr].expiration
                else t.armed == s.armed)
  {
    InsertingAgrees(s, addr);
    var e := EntryOf(s.heap, addr);
    InsertedElements(s.timers, e);
    hide Sorted, HeapInv, BatchInv, ArmInv, Inserted, IndexesAgree;
  }

  /** The end of handleRead sets it for the first timer there then is, if that one is due after time 0. */
  lemma EndArms(s: State)
    requires Inv(s) && Enabled(s, EndStep)
    ensures var t := Apply(s, EndStep);
            && !t.calling && t.batch == [] && t.clock == s.clock
            && (if t.timers != [] && t.timers[0].when > 0 then JustArmed(t) else t.armed == s.armed)
  {
    hide Inv, ResetAll;
  }

  /** Reading the timerfd clears it if it has fired; no other step touches it. */
  lemma OtherStepsArm(s: State, step: Step)
    requires Inv(s) && Enabled(s, step) && !step.AddStep? && !step.EndStep?
    ensures Apply(s, step).armed ==
            if step.BeginStep? && s.armed.Some? && s.armed.value.fireAt <= s.clock then None else s.armed
  {
    hide Inv;
  }

  /**
    Over any run every setting of the timerfd was made at some point of it for the timer that was first then:
    it fires neither before nor after that timer is due, or 100 microseconds after it was set if that is later.
   */
  lemma {:induction false} EveryArm(s: State, steps: seq<Step>) returns (k: nat)
    requires Inv(s) && LegalRun(s, steps)
    ensures k <= |steps| && LegalRun(s, steps[..k])
    ensures var v, u := Run(s, steps), Run(s, steps[..k]);
            v.armed.Some? ==> v.armed == u.armed && (k == 0 || JustArmed(u))
    decreases |steps|
  {
    k := 0;
    assert steps[..0] == [];
    if steps != [] {
      hide Inv, Apply, Enabled, JustArmed;
      StepKeeps(s, steps[0]);
      StepArms(s, steps[0]);
      var j := EveryArm(Apply(s, steps[0]), steps[1..]);
      assert steps[..j + 1][1..] == steps[1..][..j];
      assert steps[1..][..0] == [];
      if j > 0 || Apply(s, steps[0]).armed != s.armed {
        k := j + 1;
      }
    }
  }

  lemma StepArms(s: State, step: Step)
    requires Inv(s) && Enabled(s, step)
    ensures var t := Apply(s, step); t.armed == s.armed || t.armed.None? || JustArmed(t)
  {
    hide Inv, Apply;
    if step.AddStep? {
      AddArms(s, step.addr);
    } else if step.EndStep? {
      EndArms(s);
    } else {
      OtherStepsArm(s, step);
    }
  }

  // ---------- a timer from its creation on ----------

  /** A new timer has what was asked for, and an id that no timer ever had. */
  lemma CreateExactly(s: State, addr: nat, when: int, interval: nat, repeat: bool)
    requires Inv(s) && Enabled(s, CreateStep(addr, when, interval, repeat))
    ensures var t := Apply(s, CreateStep(addr, when, interval, repeat));
            && addr in t.heap && t.heap[addr] == Timer(s.created + 1, when, interval, repeat)
            && t.heap - {addr} == s.heap && t.timers == s.timers && t.active == s.active
            && t.created == s.created + 1 && s.created + 1 !in s.deleted
            && forall a :: a in s.heap ==> s.heap[a].sequence != s.created + 1
  {
    hide IndexesAgree, BatchInv, ArmInv;
  }

  // ---------- a batch, from handleRead's first half to its second ----------

  /** The steps while callbacks run. */
  predicate Within(steps: seq<Step>) { forall step :: step in steps ==> !step.BeginStep? && !step.EndStep? }

  /** The batch and its timer e stay what they are; its id joins the cancelled ones if asked to. */
  predicate Stays(s: State, t: State, e: Entry, cancelled: bool)
    requires e.addr in s.heap
  {
    var id := ActiveTimer(e.addr, s.heap[e.addr].sequence);
    && t.calling && t.batch == s.batch && t.batchTime == s.batchTime
    && e.addr in t.heap && t.heap[e.addr] == s.heap[e.addr]
    && (id in t.canceling <==> id in s.canceling || cancelled)
  }

  lemma StaysTwice(s: State, t: State, u: State, e: Entry, first: bool, second: bool)
    requires e.addr in s.heap && Stays(s, t, e, first) && Stays(t, u, e, second)
    ensures Stays(s, u, e, first || second)
  {}

  /** While callbacks run, exactly the ids cancelled by them are remembered, and the batch is left alone. */
  lemma {:induction false} BatchStays(s: State, steps: seq<Step>, e: Entry)
    requires Inv(s) && s.calling && LegalRun(s, steps) && Within(steps) && e in s.batch
    ensures e.addr in s.heap
    ensures Stays(s, Run(s, steps), e, CancelStep(ActiveTimer(e.addr, s.heap[e.addr].sequence)) in steps)
    decreases |steps|
  {
    InBatch(s, e);
    if steps != [] {
      hide Inv, Apply, Enabled;
      var id := ActiveTimer(e.addr, s.heap[e.addr].sequence);
      assert steps == [steps[0]] + steps[1..] && steps[0] in steps;
      StepKeeps(s, steps[0]);
      StepStays(s, steps[0], e);
      var t := Apply(s, steps[0]);
      assert t.calling && t.batch == s.batch && t.heap[e.addr] == s.heap[e.addr];
      hide Stays;
      BatchStays(t, steps[1..], e);
      StaysTwice(s, t, Run(s, steps), e, steps[0] == CancelStep(id), CancelStep(id) in steps[1..]);
    }
  }

  lemma InBatch(s: State, e: Entry)
    requires Inv(s) && e in s.batch
    ensures e.addr in s.heap && ActiveTimer(e.addr, s.heap[e.addr].sequence) !in s.active
  {
    hide Sorted;
  }

  lemma StepStays(s: State, step: Step, e: Entry)
    requires Inv(s) && s.calling && Enabled(s, step) && !step.BeginStep? && !step.EndStep? && e in s.batch
    ensures e.addr in s.heap
    ensures Stays(s, Apply(s, step), e, step == CancelStep(ActiveTimer(e.addr, s.heap[e.addr].sequence)))
  {
    InBatch(s, e);
    hide Sorted, ArmInv, HeapInv, BatchInv, Inserted, Erased;
  }

  /** The state in which the callbacks of the next batch run. */
  ghost function Begun(s: State): (b: State)
    requires Inv(s) && !s.calling
    ensures Inv(b)
  {
    StepKeeps(s, BeginStep);
    Apply(s, BeginStep)
  }

  /**
    A timer of a batch taken out at time T: if it repeats and no callback cancelled it, it is back afterwards,
    due at T plus its interval under its old id; otherwise it is deleted.
   */
  lemma RepeatsAfterInterval(s: State, steps: seq<Step>, e: Entry)
    requires Inv(s) && !s.calling && LegalRun(Begun(s), steps) && Within(steps)
    requires Enabled(Run(Begun(s), steps), EndStep)
    requires e in s.timers && e.when <= s.clock && e.addr in s.heap
    ensures var timer := s.heap[e.addr];
            var id := ActiveTimer(e.addr, timer.sequence);
            var t := Apply(Run(Begun(s), steps), EndStep);
            if timer.repeat && CancelStep(id) !in steps
            then Entry(s.clock + timer.interval, e.addr) in t.timers && id in t.active
            else e.addr !in t.heap && timer.sequence in t.deleted
  {
    hide *;
    BeginExactly(s, e);
    ComesBack(Begun(s), steps, e);
  }

  lemma ComesBack(b: State, steps: seq<Step>, e: Entry)
    requires Inv(b) && b.calling && b.canceling == {} && LegalRun(b, steps) && Within(steps)
    requires Enabled(Run(b, steps), EndStep) && e in b.batch && e.addr in b.heap
    ensures var timer := b.heap[e.addr];
            var id := ActiveTimer(e.addr, timer.sequence);
            var t := Apply(Run(b, steps), EndStep);
            if timer.repeat && CancelStep(id) !in steps
            then Entry(b.batchTime + timer.interval, e.addr) in t.timers && id in t.active
            else e.addr !in t.heap && timer.sequence in t.deleted
  {
    hide Inv, Apply, Run, LegalRun, Enabled, ResetAll;
    BatchStays(b, steps, e);
    var u := Run(b, steps);
    BatchSettled(u, e);
    EndIsReset(u);
  }

  lemma EndIsReset(s: State)
    requires Inv(s) && Enabled(s, EndStep)
    ensures var t, r := Apply(s, EndStep), ResetAll(s);
            t.timers == r.timers && t.active == r.active && t.heap == r.heap && t.deleted == r.deleted
  {
    hide Inv, ResetAll;
  }

  /** A batch is taken out at the time the clock shows, with every timer due by then and no cancellation yet. */
  lemma BeginExactly(s: State, e: Entry)
    requires Inv(s) && !s.calling && e in s.timers
    ensures var b := Begun(s);
            && b.calling && b.batchTime == s.clock && b.canceling == {} && b.heap == s.heap && b.ran == 0
            && (e in b.batch <==> e.when <= s.clock)
  {
    BeginSplits(s);
    hide Inv, Sorted, ExpiredCount;
    var b := Begun(s);
    assert b == Begin(s);
    assert e in b.batch || e in b.timers;
  }
}
