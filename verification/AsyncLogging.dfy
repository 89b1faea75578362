/**
  The double-buffered asynchronous logger of muduo/base/AsyncLogging.cc: any number of front-end
  threads append under a mutex, one back-end thread swaps, writes and recycles four buffers.
  A buffer pointer is an option (null when moved away), its contents a string.
 */
module AsyncLogging {
  import opened Wrappers
  import opened LogStream

  const MAX_BATCH: nat := 25

  /** Where the back-end thread is. */
  datatype Pc = LoopTop | Waiting | Swapped | Writing | Done

  /** What reaches the file: buffer contents, and a note when buffers were dropped. */
  datatype FileItem = Text(text: string) | DropNote(buffers: nat)

  /** History of the back end in log order: written text, and text it dropped. */
  datatype Fate = Written(text: string) | Lost(text: string)

  datatype State = State(
    current: string, next: Option<string>, buffers: seq<string>, running: bool,
    pc: Pc, new1: Option<string>, new2: Option<string>, batch: seq<string>, written: nat,
    file: seq<FileItem>,
    // history only
    lines: seq<string>, fates: seq<Fate>, cut: string)

  function Flat(bs: seq<string>): string {
    if bs == [] then "" else Flat(bs[..|bs| - 1]) + bs[|bs| - 1]
  }

  /** The lines that fit a buffer, concatenated in lock order. */
  function Kept(lines: seq<string>): string {
    if lines == [] then ""
    else
      var line := lines[|lines| - 1];
      Kept(lines[..|lines| - 1]) + if |line| < LARGE_BUFFER then line else ""
  }

  function Texts(fates: seq<Fate>): seq<string> { seq(|fates|, i requires 0 <= i < |fates| => fates[i].text) }

  function WrittenText(fates: seq<Fate>): string {
    if fates == [] then ""
    else
      var f := fates[|fates| - 1];
      WrittenText(fates[..|fates| - 1]) + if f.Written? then f.text else ""
  }

  function FileText(file: seq<FileItem>): string {
    if file == [] then ""
    else
      var f := file[|file| - 1];
      FileText(file[..|file| - 1]) + if f.Text? then f.text else ""
  }

  const INITIAL: State :=
    State("", Some(""), [], true, LoopTop, Some(""), Some(""), [], 0, [], [], [], "")

  // ---------- steps ----------

  function FrontAppend(s: State, line: string): State {
    var t := s.(lines := s.lines + [line]);
    if LARGE_BUFFER - |s.current| > |line| then
      t.(current := Appended(s.current, line, LARGE_BUFFER))
    else if s.next.Some? then
      t.(buffers := s.buffers + [s.current], current := Appended(s.next.value, line, LARGE_BUFFER), next := None)
    else
      t.(buffers := s.buffers + [s.current], current := Appended("", line, LARGE_BUFFER))
  }

  function Stop(s: State): State { s.(running := false) }

  /** The swap under the lock, once the wait (if any) is over for whatever reason. */
  function Swap(s: State): State
    requires s.new1.Some?
  {
    var t := s.(pc := Swapped, batch := s.buffers + [s.current], written := 0, buffers := [],
                current := s.new1.value, new1 := None);
    if s.next.None? then t.(next := s.new2, new2 := None) else t
  }

  /** An oversize batch keeps its first two buffers. */
  function DropExcess(s: State): State {
    if |s.batch| > MAX_BATCH then
      s.(pc := Writing, file := s.file + [DropNote(|s.batch| - 2)], batch := s.batch[..2], cut := Flat(s.batch[2..]))
    else s.(pc := Writing)
  }

  function WriteOne(s: State): State
    requires s.written < |s.batch|
  {
    var b := s.batch[s.written];
    s.(file := s.file + [Text(b)], fates := s.fates + [Written(b)], written := s.written + 1)
  }

  /** Keep at most two written buffers and put them, emptied, where a buffer was moved away. */
  function Recycle(s: State): State {
    var kept := if |s.batch| > 2 then 2 else |s.batch|;
    var refill1 := s.new1.None? && kept >= 1;
    var refill2 := s.new2.None? && (if refill1 then kept >= 2 else kept >= 1);
    s.(pc := LoopTop, new1 := if refill1 then Some("") else s.new1, new2 := if refill2 then Some("") else s.new2,
       batch := [], written := 0,
       fates := if s.cut == "" then s.fates else s.fates + [Lost(s.cut)], cut := "")
  }

  datatype Step =
    | AppendStep(line: string)
    | StopStep
    | EnterStep
    | WakeStep
    | DropStep
    | WriteStep
    | RecycleStep
    | ExitStep

  predicate Enabled(s: State, step: Step) {
    match step
    case AppendStep(_) => true
    case StopStep => true
    case EnterStep => s.pc == LoopTop && s.running && (s.buffers != [] ==> s.new1.Some?)
    case WakeStep => s.pc == Waiting && s.new1.Some?
    case DropStep => s.pc == Swapped
    case WriteStep => s.pc == Writing && s.written < |s.batch|
    case RecycleStep => s.pc == Writing && s.written == |s.batch|
    case ExitStep => s.pc == LoopTop && !s.running
  }

  function Apply(s: State, step: Step): State
    requires Enabled(s, step)
  {
    match step
    case AppendStep(line) => FrontAppend(s, line)
    case StopStep => Stop(s)
    case EnterStep => if s.buffers == [] then s.(pc := Waiting) else Swap(s)
    case WakeStep => Swap(s)
    case DropStep => DropExcess(s)
    case WriteStep => WriteOne(s)
    case RecycleStep => Recycle(s)
    case ExitStep => s.(pc := Done)
  }

  /** The assertions in the code, at the points where they stand. */
  predicate AssertsHold(s: State) {
    && (s.pc == LoopTop ==> s.new1 == Some("") && s.new2 == Some("") && s.batch == [])
    && (s.pc == Waiting ==> s.new1.Some?)
    && (s.pc == Swapped ==> s.batch != [])
    && (s.pc == Writing && s.written == |s.batch| ==>
          var kept := if |s.batch| > 2 then 2 else |s.batch|;
          && (s.new1.None? ==> kept >= 1)
          && (s.new2.None? ==> kept >= if s.new1.None? then 2 else 1))
  }

  // ---------- the invariant shared by both sides ----------

  /** A missing spare buffer means a full one is waiting; the back end always has what it needs to recycle. */
  predicate BuffersInv(s: State) {
    && (s.next.Some? ==> s.next.value == "")
    && (s.next.None? ==> s.buffers != [])
    && (s.new1.Some? ==> s.new1.value == "") && (s.new2.Some? ==> s.new2.value == "")
    && (if s.pc in {LoopTop, Waiting, Done} then
          s.new1.Some? && s.new2.Some? && s.batch == [] && s.written == 0 && s.cut == ""
        else
          && s.new1.None? && s.written <= |s.batch| && |s.batch| >= (if s.new2.None? then 2 else 1)
          && (s.pc == Swapped ==> s.written == 0 && s.cut == ""))
  }

  /** The places a line can be in, in log order: written or lost, still to write, cut, full, current. */
  function Pieces(s: State): seq<string>
    requires s.written <= |s.batch|
  {
    Texts(s.fates) + s.batch[s.written..] + (if s.cut == "" then [] else [s.cut]) + s.buffers + [s.current]
  }

  /** Every kept line is in exactly one place, and the places are in order. */
  predicate Conserved(s: State) {
    && s.written <= |s.batch|
    && Flat(Pieces(s)) == Kept(s.lines)
    && FileText(s.file) == WrittenText(s.fates)
  }

  predicate Inv(s: State) { BuffersInv(s) && Conserved(s) }

  lemma FlatLast(bs: seq<string>, b: string)
    ensures Flat(bs + [b]) == Flat(bs) + b
  {
    assert (bs + [b])[..|bs|] == bs;
  }

  lemma {:induction false} FlatConcat(a: seq<string>, b: seq<string>)
    ensures Flat(a + b) == Flat(a) + Flat(b)
  {
    if b == [] {
      assert a + b == a;
    } else {
      FlatConcat(a, b[..|b| - 1]);
      assert (a + b)[..|a + b| - 1] == a + b[..|b| - 1];
    }
  }

  /** Replacing a stretch of pieces by one piece with the same text. */
  lemma FlatMerged(a: seq<string>, b: seq<string>, c: seq<string>)
    ensures Flat(a + [Flat(b)] + c) == Flat(a + b + c)
  {
    FlatConcat(a + [Flat(b)], c);
    FlatConcat(a + b, c);
    FlatConcat(a, b);
    FlatLast(a, Flat(b));
  }

  lemma KeptLast(lines: seq<string>, line: string)
    ensures Kept(lines + [line]) == Kept(lines) + if |line| < LARGE_BUFFER then line else ""
  {
    assert (lines + [line])[..|lines|] == lines;
  }

  lemma AppendConserves(s: State, line: string)
    requires Inv(s)
    ensures Conserved(FrontAppend(s, line))
  {
    hide Flat, FileText, WrittenText, Texts, Kept;
    var t := FrontAppend(s, line);
    KeptLast(s.lines, line);
    var full := Texts(s.fates) + s.batch[s.written..] + (if s.cut == "" then [] else [s.cut]) + s.buffers;
    if t.buffers == s.buffers {
      FlatLast(full, s.current);
      FlatLast(full, t.current);
      assert Flat(full) + (s.current + line) == Flat(full) + s.current + line;
    } else {
      assert Pieces(t) == Pieces(s) + [t.current];
      FlatLast(Pieces(s), t.current);
    }
  }

  lemma AppendKeeps(s: State, line: string)
    requires Inv(s)
    ensures Inv(FrontAppend(s, line))
  {
    AppendConserves(s, line);
    hide Conserved;
  }

  lemma SwapKeeps(s: State)
    requires Inv(s) && s.pc in {LoopTop, Waiting}
    ensures Inv(Swap(s))
  {
    hide Flat, FileText, WrittenText, Texts;
    var t := Swap(s);
    assert Pieces(t) == Pieces(s) + [""];
    FlatLast(Pieces(s), "");
  }

  lemma DropKeeps(s: State)
    requires Inv(s) && s.pc == Swapped
    ensures Inv(DropExcess(s))
  {
    if |s.batch| > MAX_BATCH {
      var t := DropExcess(s);
      assert t.file[..|t.file| - 1] == s.file;
      hide Texts, WrittenText;
      assert FileText(t.file) == FileText(s.file);
      hide FileText;
      DropPieces(s);
    }
  }

  /** Cutting the excess out of the batch leaves its text in place, as one piece. */
  lemma DropPieces(s: State)
    requires s.written == 0 && s.cut == "" && |s.batch| > MAX_BATCH
    ensures Flat(Pieces(DropExcess(s))) == Flat(Pieces(s))
  {
    hide FileText, WrittenText, Texts, Flat;
    var t := DropExcess(s);
    var before, cut, after := Texts(s.fates) + s.batch[..2], s.batch[2..], s.buffers + [s.current];
    assert Pieces(s) == before + cut + after;
    if t.cut == "" {
      assert Pieces(t) == before + after;
      FlatConcat(before, after);
      FlatConcat(before + cut, after);
      FlatConcat(before, cut);
    } else {
      assert Pieces(t) == before + [t.cut] + after;
      FlatMerged(before, cut, after);
    }
  }

  lemma WriteKeeps(s: State)
    requires Inv(s) && s.pc == Writing && s.written < |s.batch|
    ensures Inv(WriteOne(s))
  {
    var t := WriteOne(s);
    assert t.fates[..|t.fates| - 1] == s.fates && t.file[..|t.file| - 1] == s.file;
    assert Texts(t.fates) == Texts(s.fates) + [s.batch[s.written]];
    hide Flat, FileText, WrittenText, Texts;
    assert Pieces(t) == Pieces(s);
  }

  lemma RecycleKeeps(s: State)
    requires Inv(s) && s.pc == Writing && s.written == |s.batch|
    ensures Inv(Recycle(s))
  {
    var t := Recycle(s);
    if s.cut != "" {
      assert t.fates[..|t.fates| - 1] == s.fates;
      assert Texts(t.fates) == Texts(s.fates) + [s.cut];
    }
    hide Flat, FileText, Texts;
    assert Pieces(t) == Pieces(s);
  }

  lemma StepKeeps(s: State, step: Step)
    requires Inv(s) && Enabled(s, step)
    ensures Inv(Apply(s, step))
  {
    match step
    case AppendStep(line) => AppendKeeps(s, line);
    case StopStep =>
    case EnterStep => if s.buffers != [] { SwapKeeps(s); }
    case WakeStep => SwapKeeps(s);
    case DropStep => DropKeeps(s);
    case WriteStep => WriteKeeps(s);
    case RecycleStep => RecycleKeeps(s);
    case ExitStep =>
  }

  // ---------- every run ----------

  predicate LegalRun(s: State, steps: seq<Step>)
    decreases |steps|
  {
    steps == [] || (Enabled(s, steps[0]) && LegalRun(Apply(s, steps[0]), steps[1..]))
  }

  function Run(s: State, steps: seq<Step>): State
    requires LegalRun(s, steps)
    decreases |steps|
  {
    if steps == [] then s else Run(Apply(s, steps[0]), steps[1..])
  }

  lemma {:induction false} RunKeeps(s: State, steps: seq<Step>)
    requires Inv(s) && LegalRun(s, steps)
    ensures Inv(Run(s, steps))
    decreases |steps|
  {
    hide Inv;
    if steps != [] {
      StepKeeps(s, steps[0]);
      RunKeeps(Apply(s, steps[0]), steps[1..]);
    }
  }

  lemma InitialInv()
    ensures Inv(INITIAL)
  {
    var none: seq<string> := [];
    assert Pieces(INITIAL) == [""];
    FlatLast(none, "");
  }

  lemma ReachableInv(steps: seq<Step>)
    requires LegalRun(INITIAL, steps)
    ensures Inv(Run(INITIAL, steps))
  {
    hide Inv;
    InitialInv();
    RunKeeps(INITIAL, steps);
  }

  /** No assertion of the back end fails in any interleaving, and it is never stuck. */
  lemma AssertionsNeverFail(steps: seq<Step>)
    requires LegalRun(INITIAL, steps)
    ensures AssertsHold(Run(INITIAL, steps))
    ensures var s := Run(INITIAL, steps);
            s.pc != Done ==> exists step: Step :: !step.AppendStep? && !step.StopStep? && Enabled(s, step)
  {
    hide Conserved, Run, LegalRun;
    ReachableInv(steps);
    var s := Run(INITIAL, steps);
    var step := match s.pc
      case LoopTop => if s.running then EnterStep else ExitStep
      case Waiting => WakeStep
      case Swapped => DropStep
      case _ => if s.written < |s.batch| then WriteStep else RecycleStep;
    assert s.pc != Done ==> Enabled(s, step);
  }

  /** Every run accounts for every kept line: written, lost in a drop, or still in a buffer, in lock order. */
  lemma LinesConserved(steps: seq<Step>)
    requires LegalRun(INITIAL, steps)
    ensures var s := Run(INITIAL, steps);
            && s.written <= |s.batch|
            && Flat(Pieces(s)) == Kept(s.lines)
            && FileText(s.file) == WrittenText(s.fates)
  {
    hide Flat, Kept, FileText, WrittenText, Texts, Run, LegalRun;
    ReachableInv(steps);
  }

  // ---------- runs without drops ----------

  predicate NoDrops(s: State) { forall i :: 0 <= i < |s.file| ==> s.file[i].Text? }

  predicate NothingLost(s: State) {
    s.cut == "" && forall i :: 0 <= i < |s.fates| ==> s.fates[i].Written?
  }

  lemma {:induction false} NoDropsNothingLost(s: State, steps: seq<Step>)
    requires LegalRun(s, steps) && (NoDrops(s) ==> NothingLost(s))
    ensures NoDrops(Run(s, steps)) ==> NothingLost(Run(s, steps))
    decreases |steps|
  {
    if steps != [] {
      NoDropsStep(s, steps[0]);
      NoDropsNothingLost(Apply(s, steps[0]), steps[1..]);
    }
  }

  lemma NoDropsStep(s: State, step: Step)
    requires Enabled(s, step) && (NoDrops(s) ==> NothingLost(s))
    ensures NoDrops(Apply(s, step)) ==> NothingLost(Apply(s, step))
  {
    var t := Apply(s, step);
    if step.DropStep? && |s.batch| > MAX_BATCH {
      assert t.file[|s.file|].DropNote?;
    } else {
      assert forall i :: 0 <= i < |s.file| ==> t.file[i] == s.file[i];
    }
  }

  lemma {:induction false} AllWritten(fates: seq<Fate>)
    requires forall i :: 0 <= i < |fates| ==> fates[i].Written?
    ensures Flat(Texts(fates)) == WrittenText(fates)
  {
    if fates != [] {
      assert Texts(fates)[..|fates| - 1] == Texts(fates[..|fates| - 1]);
      AllWritten(fates[..|fates| - 1]);
    }
  }

  /** When no batch exceeded 25 buffers, the file is a prefix of the kept lines and the rest is in memory, in order. */
  lemma FileIsPrefix(steps: seq<Step>)
    requires LegalRun(INITIAL, steps) && NoDrops(Run(INITIAL, steps))
    ensures var s := Run(INITIAL, steps);
            && s.written <= |s.batch|
            && FileText(s.file) + Flat(s.batch[s.written..]) + Flat(s.buffers) + s.current == Kept(s.lines)
  {
    NoDropsNothingLost(INITIAL, steps);
    hide Flat, Kept, FileText, WrittenText, Texts, Run, LegalRun;
    ReachableInv(steps);
    var s := Run(INITIAL, steps);
    AllWritten(s.fates);
    var rest := s.batch[s.written..];
    assert Pieces(s) == Texts(s.fates) + rest + s.buffers + [s.current];
    FlatLast(Texts(s.fates) + rest + s.buffers, s.current);
    FlatConcat(Texts(s.fates) + rest, s.buffers);
    FlatConcat(Texts(s.fates), rest);
  }

  lemma SwapIs(s: State, t: State)
    requires s.new1.Some?
    requires t == s.(pc := Swapped, batch := s.buffers + [s.current], written := 0, buffers := [],
                     current := s.new1.value, new1 := None, next := if s.next.None? then s.new2 else s.next,
                     new2 := if s.next.None? then None else s.new2)
    ensures t == Swap(s)
  {}

  lemma RecycleIs(s: State, t: State)
    requires s.new1.None? ==> s.batch != []
    requires s.new2.None? ==> |s.batch| >= if s.new1.None? then 2 else 1
    requires t == s.(pc := LoopTop, new1 := if s.new1.None? then Some("") else s.new1,
                     new2 := if s.new2.None? then Some("") else s.new2, batch := [], written := 0,
                     fates := if s.cut == "" then s.fates else s.fates + [Lost(s.cut)], cut := "")
    ensures t == Recycle(s)
  {}

  // ---------- the class ----------

  class AsyncLogger {
    var currentBuffer: string
    var nextBuffer: Option<string>
    var buffers: seq<string>
    var running: bool
    // the back-end thread: its program counter, locals and file
    ghost var pc: Pc
    var newBuffer1: Option<string>
    var newBuffer2: Option<string>
    var buffersToWrite: seq<string>
    var file: seq<FileItem>
    ghost var written: nat
    ghost var lines: seq<string>
    ghost var fates: seq<Fate>
    ghost var cut: string

    ghost function View(): State
      reads this
    {
      State(currentBuffer, nextBuffer, buffers, running, pc, newBuffer1, newBuffer2, buffersToWrite, written,
            file, lines, fates, cut)
    }

    constructor ()
      ensures View() == INITIAL
    {
      currentBuffer, nextBuffer, buffers, running := "", Some(""), [], true;
      newBuffer1, newBuffer2, buffersToWrite, file := Some(""), Some(""), [], [];
      pc, written, lines, fates, cut := LoopTop, 0, [], [], "";
    }

    method Append(logline: string)
      modifies this
      ensures View() == FrontAppend(old(View()), logline)
    {
      if LARGE_BUFFER - |currentBuffer| > |logline| {
        currentBuffer := Appended(currentBuffer, logline, LARGE_BUFFER);
      } else {
        buffers := buffers + [currentBuffer];
        if nextBuffer.Some? {
          currentBuffer := nextBuffer.value;
          nextBuffer := None;
        } else {
          currentBuffer := "";
        }
        currentBuffer := Appended(currentBuffer, logline, LARGE_BUFFER);
      }
      lines := lines + [logline];
    }

    /** The part of the loop under the lock, after the wait. */
    method SwapBuffers()
      requires BuffersInv(View()) && pc in {LoopTop, Waiting}
      modifies this
      ensures View() == Swap(old(View())) && buffersToWrite != []
    {
      assert newBuffer1.Some? && buffersToWrite == [];
      hide BuffersInv, Swap;
      ghost var s := View();
      pc, written := Swapped, 0;
      buffers := buffers + [currentBuffer];
      currentBuffer, newBuffer1 := newBuffer1.value, None;
      buffersToWrite, buffers := buffers, buffersToWrite;
      if nextBuffer.None? {
        nextBuffer, newBuffer2 := newBuffer2, None;
      }
      SwapIs(s, View());
    }

    /** The part of the loop outside the lock, on its own locals: afterwards both spare buffers are back. */
    method WriteAndRecycle()
      requires Inv(View()) && pc == Swapped
      modifies this
      ensures View() == Recycle(WriteAll(DropExcess(old(View())))) && Inv(View())
      ensures newBuffer1 == Some("") && newBuffer2 == Some("") && buffersToWrite == []
    {
      hide DropExcess, Recycle, Conserved;
      DropKeeps(View());
      DropExcessBuffers();
      WriteAllKeeps(View());
      WriteBatch();
      RecycleKeeps(View());
      RecycleBuffers();
    }

    method DropExcessBuffers()
      requires pc == Swapped
      modifies this
      ensures View() == DropExcess(old(View())) && pc == Writing && written == old(written)
    {
      if |buffersToWrite| > MAX_BATCH {
        file := file + [DropNote(|buffersToWrite| - 2)];
        cut := Flat(buffersToWrite[2..]);
        buffersToWrite := buffersToWrite[..2];
      }
      pc := Writing;
    }

    method WriteBatch()
      requires written == 0
      modifies this
      ensures View() == WriteAll(old(View()))
    {
      var i := 0;
      while i < |buffersToWrite|
        invariant i == written <= |buffersToWrite|
        invariant WriteAll(View()) == WriteAll(old(View()))
      {
        file := file + [Text(buffersToWrite[i])];
        fates, written := fates + [Written(buffersToWrite[i])], written + 1;
        i := i + 1;
      }
    }

    method RecycleBuffers()
      requires newBuffer1.None? ==> buffersToWrite != []
      requires newBuffer2.None? ==> |buffersToWrite| >= if newBuffer1.None? then 2 else 1
      modifies this
      ensures View() == Recycle(old(View())) && pc == LoopTop
    {
      hide Recycle;
      ghost var s := View();
      RefillSpares();
      ForgetBatch();
      RecycleIs(s, View());
    }

    method ForgetBatch()
      modifies this`fates, this`buffersToWrite, this`pc, this`written, this`cut
      ensures fates == (if old(cut) == "" then old(fates) else old(fates) + [Lost(old(cut))])
      ensures buffersToWrite == [] && pc == LoopTop && written == 0 && cut == ""
    {
      fates := if cut == "" then fates else fates + [Lost(cut)];
      buffersToWrite := [];
      pc, written, cut := LoopTop, 0, "";
    }

    /** Up to two written buffers, emptied, become the spare ones. */
    method RefillSpares()
      requires newBuffer1.None? ==> buffersToWrite != []
      requires newBuffer2.None? ==> |buffersToWrite| >= if newBuffer1.None? then 2 else 1
      modifies this`buffersToWrite, this`newBuffer1, this`newBuffer2
      ensures newBuffer1 == (if old(newBuffer1).None? then Some("") else old(newBuffer1))
      ensures newBuffer2 == (if old(newBuffer2).None? then Some("") else old(newBuffer2))
    {
      if |buffersToWrite| > 2 {
        buffersToWrite := buffersToWrite[..2];
      }
      if newBuffer1.None? {
        assert buffersToWrite != [];
        buffersToWrite := buffersToWrite[..|buffersToWrite| - 1];
        newBuffer1 := Some("");
      }
      if newBuffer2.None? {
        assert buffersToWrite != [];
        buffersToWrite := buffersToWrite[..|buffersToWrite| - 1];
        newBuffer2 := Some("");
      }
    }
  }

  function WriteAll(s: State): State
    requires s.written <= |s.batch|
    decreases |s.batch| - s.written
  {
    if s.written == |s.batch| then s else WriteAll(WriteOne(s))
  }

  lemma {:induction false} WriteAllKeeps(s: State)
    requires Inv(s) && s.pc == Writing
    ensures var t := WriteAll(s);
            Inv(t) && t.pc == Writing && t.written == |t.batch|
    decreases |s.batch| - s.written
  {
    hide Flat, Kept, FileText, WrittenText, Texts;
    if s.written < |s.batch| {
      WriteKeeps(s);
      WriteAllKeeps(WriteOne(s));
    }
  }
}
