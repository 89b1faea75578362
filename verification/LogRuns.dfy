/**
  Whole runs of the asynchronous logger, told by the lines given to append: where each of them is, when
  buffers are dropped, and what stop means.
 */
module LogRuns {
  import opened Wrappers
  import opened LogStream
  import opened AsyncLogging

  /** The lines given to append, in lock order. */
  function Logged(steps: seq<Step>): seq<string> {
    if steps == [] then []
    else (if steps[0].AppendStep? then [steps[0].line] else []) + Logged(steps[1..])
  }

  /** Those of fewer than four million characters, joined; longer ones do not fit any buffer. */
  function Fitting(lines: seq<string>): string {
    if lines == [] then ""
    else
      var last := lines[|lines| - 1];
      Fitting(lines[..|lines| - 1]) + (if |last| < 4_000_000 then last else "")
  }

  lemma {:induction false} FittingIsKept(lines: seq<string>)
    ensures Fitting(lines) == Kept(lines)
  {
    if lines != [] {
      FittingIsKept(lines[..|lines| - 1]);
    }
  }

  lemma {:induction false} LinesAreLogged(s: State, steps: seq<Step>)
    requires LegalRun(s, steps)
    ensures Run(s, steps).lines == s.lines + Logged(steps)
    decreases |steps|
  {
    if steps == [] {
      assert s.lines + [] == s.lines;
    } else {
      LineOfStep(s, steps[0]);
      hide Apply, Enabled;
      LinesAreLogged(Apply(s, steps[0]), steps[1..]);
      var first := if steps[0].AppendStep? then [steps[0].line] else [];
      assert s.lines + (first + Logged(steps[1..])) == (s.lines + first) + Logged(steps[1..]);
    }
  }

  lemma LineOfStep(s: State, step: Step)
    requires Enabled(s, step)
    ensures Apply(s, step).lines == s.lines + if step.AppendStep? then [step.line] else []
  {
    assert s.lines + [] == s.lines;
  }

  /** Every line logged is written, dropped with its buffer, or still in memory, in the order of logging. */
  lemma EveryLine(steps: seq<Step>)
    requires LegalRun(INITIAL, steps)
    ensures var s := Run(INITIAL, steps);
            && s.written <= |s.batch|
            && Flat(Pieces(s)) == Fitting(Logged(steps))
            && FileText(s.file) == WrittenText(s.fates)
  {
    LinesConserved(steps);
    LinesAreLogged(INITIAL, steps);
    FittingIsKept(Logged(steps));
    assert [] + Logged(steps) == Logged(steps);
    hide Run, LegalRun, Flat, FileText, WrittenText, Kept, Fitting, Texts;
  }

  /** The front end: the line joins the current buffer if it leaves a byte, and otherwise opens the next one. */
  lemma AppendExactly(s: State, line: string)
    requires BuffersInv(s)
    ensures var t := Apply(s, AppendStep(line));
            if |s.current| + |line| < 4_000_000 then
              t.current == s.current + line && t.buffers == s.buffers && t.next == s.next
            else
              && t.buffers == s.buffers + [s.current] && t.next == None
              && t.current == (if |line| < 4_000_000 then line else "")
  {
    assert "" + line == line;
  }

  /** No buffer ever holds more than fits it. */
  predicate Fits(s: State) {
    && |s.current| < 4_000_000
    && (forall b :: b in s.buffers ==> |b| < 4_000_000) && (forall b :: b in s.batch ==> |b| < 4_000_000)
  }

  lemma StepFits(s: State, step: Step)
    requires Inv(s) && Enabled(s, step) && Fits(s)
    ensures Fits(Apply(s, step))
  {
    hide Conserved;
    if step.AppendStep? {
      AppendExactly(s, step.line);
      hide Apply;
    }
  }

  lemma {:induction false} RunFits(s: State, steps: seq<Step>)
    requires Inv(s) && LegalRun(s, steps) && Fits(s)
    ensures Fits(Run(s, steps))
    decreases |steps|
  {
    hide Inv, Apply, Enabled, Fits;
    if steps != [] {
      StepKeeps(s, steps[0]);
      StepFits(s, steps[0]);
      RunFits(Apply(s, steps[0]), steps[1..]);
    }
  }

  /** A batch loses buffers exactly if it has more than 25: all but the first two, with a note of how many. */
  lemma DropExactly(s: State)
    requires Enabled(s, DropStep)
    ensures var t := Apply(s, DropStep);
            if |s.batch| > 25 then
              && t.batch == s.batch[..2] && t.file == s.file + [DropNote(|s.batch| - 2)] && t.cut == Flat(s.batch[2..])
            else t.batch == s.batch && t.file == s.file && t.cut == s.cut
  {}

  /** Each turn of the write loop brings one more buffer of the batch to the file. */
  lemma WriteExactly(s: State)
    requires Enabled(s, WriteStep)
    ensures var t := Apply(s, WriteStep);
            t.file == s.file + [Text(s.batch[s.written])] && t.written == s.written + 1 && t.batch == s.batch
  {}

  // ---------- stop ----------

  /** stop is final, and at the top of its loop the back end then leaves without writing anything more. */
  lemma {:induction false} StopIsFinal(s: State, steps: seq<Step>)
    requires LegalRun(s, steps) && !s.running
    ensures var t := Run(s, steps);
            && !t.running
            && (s.pc == LoopTop || s.pc == Done ==> (t.pc == LoopTop || t.pc == Done) && t.file == s.file)
            && (s.pc == LoopTop && ExitStep in steps ==> t.pc == Done)
            && (s.pc == Done ==> t.pc == Done)
    decreases |steps|
  {
    if steps != [] {
      StopStays(s, steps[0]);
      hide Apply, Enabled;
      StopIsFinal(Apply(s, steps[0]), steps[1..]);
    }
  }

  lemma StopStays(s: State, step: Step)
    requires Enabled(s, step) && !s.running
    ensures var t := Apply(s, step);
            && !t.running
            && (s.pc == LoopTop || s.pc == Done ==>
                  t.file == s.file && t.pc == (if step.ExitStep? then Done else s.pc))
  {}

  lemma StopExactly(s: State)
    ensures !Apply(s, StopStep).running && Apply(s, StopStep).(running := s.running) == s
  {}

  /**
    What a logger that has ended never wrote: without dropped buffers the file holds every line logged if and
    only if nothing was left in the full buffers and the current one.
   */
  lemma AllWrittenExactly(steps: seq<Step>)
    requires LegalRun(INITIAL, steps) && NoDrops(Run(INITIAL, steps)) && Run(INITIAL, steps).pc == Done
    ensures var s := Run(INITIAL, steps);
            FileText(s.file) == Fitting(Logged(steps)) <==> Flat(s.buffers) + s.current == ""
  {
    FileIsPrefix(steps);
    ReachableInv(steps);
    LinesAreLogged(INITIAL, steps);
    FittingIsKept(Logged(steps));
    assert [] + Logged(steps) == Logged(steps);
    var s := Run(INITIAL, steps);
    assert Flat(s.batch[s.written..]) == "" by {
      assert s.batch == [];
    }
    hide Run, LegalRun, Flat, FileText, Kept, Fitting, Inv;
    var left := Flat(s.buffers) + s.current;
    assert FileText(s.file) + "" + Flat(s.buffers) + s.current == FileText(s.file) + left;
    assert left != "" ==> |FileText(s.file) + left| > |FileText(s.file)|;
  }

  /** Such a run loses a line: it is logged after the back end has last looked, and before stop. */
  lemma LastLineLost(line: string) returns (steps: seq<Step>)
    requires line != ""
    ensures LegalRun(INITIAL, steps) && Logged(steps) == [line]
    ensures Run(INITIAL, steps).pc == Done && Run(INITIAL, steps).file == []
  {
    steps := [AppendStep(line), StopStep, ExitStep];
    var s1 := Apply(INITIAL, steps[0]);
    var s2 := Apply(s1, steps[1]);
    assert Enabled(s1, steps[1]) && Enabled(s2, steps[2]);
    assert Apply(s2, steps[2]).pc == Done && Apply(s2, steps[2]).file == [];
    hide Apply;
    assert steps[1..][1..] == [ExitStep] && steps[1..][1..][1..] == [];
    assert LegalRun(s2, [ExitStep]) && Run(s2, [ExitStep]) == Apply(s2, ExitStep);
    assert LegalRun(s1, steps[1..]) && Run(s1, steps[1..]) == Apply(s2, ExitStep);
    assert Logged(steps[1..][1..]) == [] && Logged(steps[1..]) == [];
  }
}
