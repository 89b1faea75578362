/**
  The output side of muduo/net/TcpConnection.cc: sendInLoop, handleWrite, graceful shutdown and close,
  on the loop thread. What write(2) does is a parameter of each step; the bytes the kernel has taken
  and the bytes of the messages that were not dropped whole are kept as history.
 */
module TcpConnection {
  import opened BigEndian
  import opened ConnectionState
  import opened NetBuffer

  /** write(2): a byte count, EWOULDBLOCK, EPIPE or ECONNRESET, any other errno. */
  datatype WriteResult = Wrote(n: nat) | WouldBlock | Broken | OtherError

  datatype Posted = WriteComplete | HighWater(length: nat)

  /** One call of shutdownWrite: the state then, and how many accepted bytes the kernel had not taken. */
  datatype ShutdownCall = ShutdownCall(state: ConnState, unsent: nat)

  datatype Conn = Conn(
    state: ConnState, reading: bool, writing: bool, output: seq<Byte>,
    mark: nat, wantHighWater: bool, wantWriteComplete: bool,
    posted: seq<Posted>, shutdowns: seq<ShutdownCall>,
    // history only: bytes the kernel took, bytes accepted, whether shutdownInLoop has run
    kernel: seq<Byte>, accepted: seq<Byte>, shutdownAsked: bool)

  predicate PossibleWrite(w: WriteResult, available: nat) { w.Wrote? ==> w.n <= available }

  // ---------- steps ----------

  predicate WritesDirectly(c: Conn) { c.state != Disconnected && !c.writing && c.output == [] }

  /** Dropped whole: given up when disconnected, or refused by a broken connection before any byte went out. */
  predicate DroppedWhole(c: Conn, w: WriteResult) {
    c.state == Disconnected || (WritesDirectly(c) && w.Broken?)
  }

  function WriteCompleted(c: Conn): Conn {
    if c.wantWriteComplete then c.(posted := c.posted + [WriteComplete]) else c
  }

  function Queued(c: Conn, data: seq<Byte>): Conn {
    var n := |c.output| + |data|;
    var d := if n >= c.mark && |c.output| < c.mark && c.wantHighWater
             then c.(posted := c.posted + [HighWater(n)]) else c;
    d.(output := c.output + data, writing := true)
  }

  function SendInLoop(c: Conn, data: seq<Byte>, w: WriteResult): Conn
    requires PossibleWrite(w, |data|)
  {
    if DroppedWhole(c, w) then c
    else
      var a := c.(accepted := c.accepted + data);
      if WritesDirectly(c) && w.Wrote? then
        var b := a.(kernel := c.kernel + data[..w.n]);
        if w.n == |data| then WriteCompleted(b) else Queued(b, data[w.n..])
      else if data == [] then a
      else Queued(a, data)
  }

  function ShutdownWrite(c: Conn): Conn {
    c.(shutdowns := c.shutdowns + [ShutdownCall(c.state, |c.output|)])
  }

  function ShutdownInLoop(c: Conn): Conn {
    var a := c.(shutdownAsked := true);
    if c.writing then a else ShutdownWrite(a)
  }

  function HandleWrite(c: Conn, w: WriteResult): Conn
    requires PossibleWrite(w, |c.output|)
  {
    if c.writing && w.Wrote? && w.n > 0 then
      var b := c.(kernel := c.kernel + c.output[..w.n], output := c.output[w.n..]);
      if b.output == [] then
        var d := WriteCompleted(b.(writing := false));
        if c.state == Disconnecting then ShutdownInLoop(d) else d
      else b
    else c
  }

  function HandleClose(c: Conn): Conn { c.(state := Disconnected, reading := false, writing := false) }

  datatype Step =
    | SendStep(data: seq<Byte>, w: WriteResult)
    | WriteStep(w: WriteResult)
    | ShutdownStep          // shutdown(): the state change
    | ShutdownInLoopStep
    | ForceCloseStep        // forceClose(): the state change
    | CloseStep             // handleClose, from an event or from forceCloseInLoop
    | EstablishStep
    | DestroyStep

  /** shutdownInLoop is only ever posted by shutdown, after it has left kConnected. */
  predicate Enabled(c: Conn, step: Step) {
    match step
    case SendStep(data, w) => PossibleWrite(w, |data|)
    case WriteStep(w) => PossibleWrite(w, |c.output|)
    case CloseStep => c.state == Connected || c.state == Disconnecting
    case EstablishStep => c.state == Connecting
    case ShutdownInLoopStep => c.state == Disconnecting || c.state == Disconnected
    case _ => true
  }

  function Apply(c: Conn, step: Step): Conn
    requires Enabled(c, step)
  {
    match step
    case SendStep(data, w) => SendInLoop(c, data, w)
    case WriteStep(w) => HandleWrite(c, w)
    case ShutdownStep => if c.state == Connected then c.(state := Disconnecting) else c
    case ShutdownInLoopStep => ShutdownInLoop(c)
    case ForceCloseStep => if c.state in {Connected, Disconnecting} then c.(state := Disconnecting) else c
    case CloseStep => HandleClose(c)
    case EstablishStep => c.(state := Connected, reading := true)
    case DestroyStep => if c.state == Connected then HandleClose(c) else c
  }

  // ---------- invariant ----------

  /** Nothing is lost, duplicated or reordered between the messages and the kernel. */
  predicate StreamIntact(c: Conn) { c.kernel + c.output == c.accepted }

  /** The channel waits for writability exactly while something is queued. */
  predicate InterestMatches(c: Conn) { c.state != Disconnected ==> (c.writing <==> c.output != []) }

  /** The write side is never shut while accepted bytes are unsent, unless the connection is already down. */
  predicate GracefulShutdowns(c: Conn) {
    forall i :: 0 <= i < |c.shutdowns| ==> c.shutdowns[i].state == Disconnected || c.shutdowns[i].unsent == 0
  }

  /** A shutdown asked for is done, or waits for queued bytes. */
  predicate ShutdownPending(c: Conn) {
    && (c.shutdownAsked && c.state == Disconnecting ==> c.output != [] || c.shutdowns != [])
    && (c.state == Connecting || c.state == Connected ==> !c.shutdownAsked)
  }

  predicate Inv(c: Conn) { StreamIntact(c) && InterestMatches(c) && GracefulShutdowns(c) && ShutdownPending(c) }

  lemma QueuedKeeps(c: Conn, data: seq<Byte>)
    requires data != [] && c.state != Disconnected
    requires c.kernel + c.output + data == c.accepted && GracefulShutdowns(c)
    requires c.state == Connecting || c.state == Connected ==> !c.shutdownAsked
    ensures Inv(Queued(c, data)) && Queued(c, data).state == c.state
  {
    var d := Queued(c, data);
    assert d.kernel + d.output == c.kernel + c.output + data;
  }

  lemma SendKeeps(c: Conn, data: seq<Byte>, w: WriteResult)
    requires Inv(c) && PossibleWrite(w, |data|)
    ensures Inv(SendInLoop(c, data, w))
  {
    if !DroppedWhole(c, w) {
      var a := c.(accepted := c.accepted + data);
      if WritesDirectly(c) && w.Wrote? {
        var b := a.(kernel := c.kernel + data[..w.n]);
        assert c.kernel + [] + data == c.kernel + data;
        assert b.kernel + [] + data[w.n..] == c.kernel + data;
        if w.n == |data| {
          assert data[..w.n] == data;
        } else {
          QueuedKeeps(b, data[w.n..]);
        }
      } else if data != [] {
        QueuedKeeps(a, data);
      }
    }
  }

  lemma WriteKeeps(c: Conn, w: WriteResult)
    requires Inv(c) && PossibleWrite(w, |c.output|)
    ensures Inv(HandleWrite(c, w))
  {
    if c.writing && w.Wrote? && w.n > 0 {
      var b := c.(kernel := c.kernel + c.output[..w.n], output := c.output[w.n..]);
      assert b.kernel + b.output == c.kernel + (c.output[..w.n] + c.output[w.n..]);
      assert c.output[..w.n] + c.output[w.n..] == c.output;
    }
  }

  lemma StepKeeps(c: Conn, step: Step)
    requires Inv(c) && Enabled(c, step)
    ensures Inv(Apply(c, step))
  {
    match step {
    case SendStep(data, w) => SendKeeps(c, data, w);
    case WriteStep(w) => WriteKeeps(c, w);
    case _ =>
    }
  }

  // ---------- every run ----------

  predicate LegalRun(c: Conn, steps: seq<Step>)
    decreases |steps|
  {
    steps == [] || (Enabled(c, steps[0]) && LegalRun(Apply(c, steps[0]), steps[1..]))
  }

  function Run(c: Conn, steps: seq<Step>): Conn
    requires LegalRun(c, steps)
    decreases |steps|
  {
    if steps == [] then c else Run(Apply(c, steps[0]), steps[1..])
  }

  function Initial(mark: nat, wantHighWater: bool, wantWriteComplete: bool): Conn {
    Conn(Connecting, true, false, [], mark, wantHighWater, wantWriteComplete, [], [], [], [], false)
  }

  lemma {:induction false} RunKeeps(c: Conn, steps: seq<Step>)
    requires Inv(c) && LegalRun(c, steps)
    ensures Inv(Run(c, steps))
    decreases |steps|
  {
    if steps != [] {
      StepKeeps(c, steps[0]);
      RunKeeps(Apply(c, steps[0]), steps[1..]);
    }
  }

  /**
    What a step must bring to the kernel in the end: the data of a send, unless the connection is down, or
    nothing is queued and the kernel answers EPIPE or ECONNRESET.
   */
  function Message(c: Conn, step: Step): seq<Byte> {
    if step.SendStep? && c.state != Disconnected && !(!c.writing && c.output == [] && step.w.Broken?)
    then step.data else []
  }

  lemma StepAccepts(c: Conn, step: Step)
    requires Enabled(c, step)
    ensures Apply(c, step).accepted == c.accepted + Message(c, step)
  {
    assert c.accepted + [] == c.accepted;
  }

  /** The messages given to sendInLoop and not dropped whole, joined in order. */
  function Messages(c: Conn, steps: seq<Step>): seq<Byte>
    requires LegalRun(c, steps)
    decreases |steps|
  {
    if steps == [] then [] else Message(c, steps[0]) + Messages(Apply(c, steps[0]), steps[1..])
  }

  lemma {:induction false} AcceptedIsMessages(c: Conn, steps: seq<Step>)
    requires LegalRun(c, steps)
    ensures Run(c, steps).accepted == c.accepted + Messages(c, steps)
    decreases |steps|
  {
    hide Apply, Message;
    if steps == [] {
      assert c.accepted + [] == c.accepted;
    } else {
      var d := Apply(c, steps[0]);
      StepAccepts(c, steps[0]);
      AcceptedIsMessages(d, steps[1..]);
      assert c.accepted + (Message(c, steps[0]) + Messages(d, steps[1..]))
          == (c.accepted + Message(c, steps[0])) + Messages(d, steps[1..]);
    }
  }

  /** Over any mix of sends, partial writes, errors, writable events, shutdowns and closes. */
  lemma StreamIntegrity(mark: nat, highWater: bool, writeComplete: bool, steps: seq<Step>)
    requires LegalRun(Initial(mark, highWater, writeComplete), steps)
    ensures var c := Run(Initial(mark, highWater, writeComplete), steps);
            && c.kernel + c.output == Messages(Initial(mark, highWater, writeComplete), steps)
            && (c.state != Disconnected ==> (c.writing <==> c.output != []))
            && (forall call :: call in c.shutdowns ==> call.state == Disconnected || call.unsent == 0)
            && (c.shutdownAsked && c.state == Disconnecting ==> c.output != [] || c.shutdowns != [])
  {
    var start := Initial(mark, highWater, writeComplete);
    AcceptedIsMessages(start, steps);
    assert [] + Messages(start, steps) == Messages(start, steps);
    hide Messages;
    RunKeeps(start, steps);
  }

  /** shutdownInLoop shuts the write side with bytes unsent exactly when the connection is down with output left. */
  lemma ShutdownUnsentExactly(c: Conn)
    requires Inv(c)
    ensures (var d := ShutdownInLoop(c);
             d.shutdowns != c.shutdowns && d.shutdowns[|c.shutdowns|].unsent > 0)
       <==> (c.state == Disconnected && !c.writing && c.output != [])
  {}

  /** Such a run: a message waits for the kernel, shutdown is asked for, and the peer goes away before it runs. */
  lemma UnsentShutdownReached() returns (steps: seq<Step>)
    ensures LegalRun(Initial(0, false, false), steps)
    ensures Run(Initial(0, false, false), steps).shutdowns == [ShutdownCall(Disconnected, 1)]
  {
    steps := [EstablishStep, SendStep([7], WouldBlock), ShutdownStep, CloseStep, ShutdownInLoopStep];
    var c0 := Initial(0, false, false);
    var c1 := Apply(c0, steps[0]);
    var c2 := Apply(c1, steps[1]);
    var c3 := Apply(c2, steps[2]);
    var c4 := Apply(c3, steps[3]);
    var c5 := Apply(c4, steps[4]);
    assert c5.shutdowns == [ShutdownCall(Disconnected, 1)];
    assert Enabled(c0, steps[0]) && Enabled(c1, steps[1]) && Enabled(c2, steps[2]);
    assert Enabled(c3, steps[3]) && Enabled(c4, steps[4]);
    hide Apply, Enabled;
    assert steps[1..][1..][1..][1..] == [ShutdownInLoopStep];
    assert steps[1..][1..][1..] == [CloseStep, ShutdownInLoopStep];
    assert steps[1..][1..] == [ShutdownStep, CloseStep, ShutdownInLoopStep];
    assert LegalRun(c4, [ShutdownInLoopStep]) && Run(c4, [ShutdownInLoopStep]) == c5;
    assert LegalRun(c2, steps[1..][1..]) && Run(c2, steps[1..][1..]) == c5;
  }

  /** A shutdown waiting for queued data is issued by the very step that drains it, after the last byte. */
  lemma ShutdownWhenDrained(c: Conn, w: WriteResult)
    requires Inv(c) && PossibleWrite(w, |c.output|) && c.state == Disconnecting && c.output != []
    ensures var d := HandleWrite(c, w);
            d.output == [] <==> d.shutdowns == c.shutdowns + [ShutdownCall(Disconnecting, 0)]
    ensures var d := HandleWrite(c, w);
            d.output == [] ==> d.kernel == d.accepted
  {
    WriteKeeps(c, w);
  }

  // ---------- callbacks ----------

  function HighWaterCount(posted: seq<Posted>): nat {
    if posted == [] then 0
    else HighWaterCount(posted[..|posted| - 1]) + if posted[|posted| - 1].HighWater? then 1 else 0
  }

  function Crossing(before: nat, after: nat, mark: nat): nat {
    if before < mark <= after then 1 else 0
  }

  /** Upward crossings of the mark by the queued length, along a run. */
  function Crossings(c: Conn, steps: seq<Step>): nat
    requires LegalRun(c, steps)
    decreases |steps|
  {
    if steps == [] then 0
    else
      var d := Apply(c, steps[0]);
      Crossing(|c.output|, |d.output|, c.mark) + Crossings(d, steps[1..])
  }

  lemma PostedLast(posted: seq<Posted>, p: Posted)
    ensures HighWaterCount(posted + [p]) == HighWaterCount(posted) + if p.HighWater? then 1 else 0
  {
    assert (posted + [p])[..|posted|] == posted;
  }

  lemma StepCrossing(c: Conn, step: Step)
    requires Inv(c) && Enabled(c, step)
    ensures var d := Apply(c, step);
            && d.mark == c.mark && d.wantHighWater == c.wantHighWater
            && HighWaterCount(d.posted) == HighWaterCount(c.posted)
                 + if c.wantHighWater then Crossing(|c.output|, |d.output|, c.mark) else 0
  {
    match step {
    case SendStep(data, w) =>
      SendCrossing(c, data, w);
      hide HighWaterCount, SendInLoop, Inv;
    case WriteStep(w) =>
      WriteCrossing(c, w);
      hide HighWaterCount, HandleWrite, Inv;
    case _ => hide HighWaterCount;
    }
  }

  lemma WriteCrossing(c: Conn, w: WriteResult)
    requires PossibleWrite(w, |c.output|)
    ensures var d := HandleWrite(c, w);
            && d.mark == c.mark && d.wantHighWater == c.wantHighWater
            && HighWaterCount(d.posted) == HighWaterCount(c.posted) && |d.output| <= |c.output|
  {
    PostedLast(c.posted, WriteComplete);
    hide HighWaterCount;
  }

  lemma QueuedCrossing(c: Conn, data: seq<Byte>)
    ensures HighWaterCount(Queued(c, data).posted) == HighWaterCount(c.posted)
              + if c.wantHighWater then Crossing(|c.output|, |c.output| + |data|, c.mark) else 0
  {
    PostedLast(c.posted, HighWater(|c.output| + |data|));
    hide HighWaterCount;
  }

  lemma SendCrossing(c: Conn, data: seq<Byte>, w: WriteResult)
    requires PossibleWrite(w, |data|)
    ensures var d := SendInLoop(c, data, w);
            && d.mark == c.mark && d.wantHighWater == c.wantHighWater
            && HighWaterCount(d.posted) == HighWaterCount(c.posted)
              + if c.wantHighWater then Crossing(|c.output|, |d.output|, c.mark) else 0
  {
    PostedLast(c.posted, WriteComplete);
    var a := c.(accepted := c.accepted + data);
    if WritesDirectly(c) && w.Wrote? {
      QueuedCrossing(a.(kernel := c.kernel + data[..w.n]), data[w.n..]);
    } else {
      QueuedCrossing(a, data);
    }
    hide HighWaterCount;
  }

  /** The high-water callback is queued exactly once for each upward crossing. */
  lemma {:induction false} HighWaterExactly(c: Conn, steps: seq<Step>)
    requires Inv(c) && LegalRun(c, steps) && c.wantHighWater
    ensures HighWaterCount(Run(c, steps).posted) == HighWaterCount(c.posted) + Crossings(c, steps)
    decreases |steps|
  {
    if steps != [] {
      StepKeeps(c, steps[0]);
      StepCrossing(c, steps[0]);
      HighWaterExactly(Apply(c, steps[0]), steps[1..]);
    }
  }

  /** The write-complete callback is queued only when every accepted byte is in the kernel. */
  lemma WriteCompleteWhenAllSent(c: Conn, step: Step)
    requires Inv(c) && Enabled(c, step)
    ensures var d := Apply(c, step);
            d.posted == c.posted + [WriteComplete] ==> d.output == [] && d.kernel == d.accepted
    ensures var d := Apply(c, step);
            c.wantWriteComplete && c.output != [] && d.output == [] ==> d.posted == c.posted + [WriteComplete]
  {
    StepKeeps(c, step);
    var d := Apply(c, step);
    assert |d.posted| > |c.posted| && d.posted[|c.posted|].WriteComplete? ==> d.output == [];
  }

  // ---------- the class ----------

  class Connection {
    var state: ConnState
    var reading: bool
    var writing: bool
    const outputBuffer: Buffer
    const inputBuffer: Buffer
    const highWaterMark: nat
    const highWaterMarkCallback: bool
    const writeCompleteCallback: bool
    var posted: seq<Posted>
    var shutdowns: seq<ShutdownCall>
    ghost var kernel: seq<Byte>
    ghost var accepted: seq<Byte>
    ghost var shutdownAsked: bool

    ghost predicate Valid()
      reads this, outputBuffer, inputBuffer
    {
      outputBuffer.Valid() && inputBuffer.Valid() && outputBuffer != inputBuffer
    }

    ghost function View(): Conn
      requires Valid()
      reads this, outputBuffer, inputBuffer
    {
      Conn(state, reading, writing, outputBuffer.Readable(), highWaterMark, highWaterMarkCallback,
           writeCompleteCallback, posted, shutdowns, kernel, accepted, shutdownAsked)
    }

    constructor (highWaterMark: nat, highWaterMarkCallback: bool, writeCompleteCallback: bool)
      ensures Valid() && View() == Initial(highWaterMark, highWaterMarkCallback, writeCompleteCallback)
      ensures fresh(outputBuffer) && fresh(inputBuffer)
    {
      state, reading, writing := Connecting, true, false;
      outputBuffer := new Buffer(INITIAL_SIZE);
      inputBuffer := new Buffer(INITIAL_SIZE);
      this.highWaterMark := highWaterMark;
      this.highWaterMarkCallback := highWaterMarkCallback;
      this.writeCompleteCallback := writeCompleteCallback;
      posted, shutdowns, kernel, accepted, shutdownAsked := [], [], [], [], false;
    }

    method Send(data: seq<Byte>, w: WriteResult)
      requires Valid() && PossibleWrite(w, |data|)
      modifies this, outputBuffer
      ensures Valid() && View() == SendInLoop(old(View()), data, w)
    {
      hide Queued;
      assert data[0..] == data;
      if state == Disconnected {
        return;
      }
      if !writing && outputBuffer.ReadableBytes() == 0 {
        var nwrote, faultError := WriteDirectly(data, w);
        if !faultError {
          AcceptAndQueue(data, nwrote);
        }
      } else {
        AcceptAndQueue(data, 0);
      }
    }

    /** What the kernel did not take goes to the output buffer. */
    method AcceptAndQueue(data: seq<Byte>, nwrote: nat)
      requires Valid() && nwrote <= |data|
      modifies this, outputBuffer
      ensures Valid()
      ensures var a := old(View()).(accepted := old(accepted) + data);
              View() == if nwrote < |data| then Queued(a, if nwrote == 0 then data else data[nwrote..]) else a
    {
      accepted := accepted + data;
      if |data| - nwrote > 0 {
        assert nwrote == 0 ==> data[nwrote..] == data;
        Queue(data[nwrote..]);
      }
    }

    /** The attempt to write when nothing is queued. */
    method WriteDirectly(data: seq<Byte>, w: WriteResult) returns (nwrote: nat, faultError: bool)
      requires Valid() && PossibleWrite(w, |data|)
      modifies this`posted, this`kernel
      ensures Valid() && faultError == w.Broken? && nwrote == if w.Wrote? then w.n else 0
      ensures var a := old(View());
              View() == if !w.Wrote? then a
                        else
                          var b := a.(kernel := a.kernel + data[..w.n]);
                          if w.n == |data| then WriteCompleted(b) else b
    {
      nwrote, faultError := 0, false;
      match w {
      case Wrote(n) =>
        nwrote := n;
        kernel := kernel + data[..n];
        if nwrote == |data| && writeCompleteCallback {
          posted := posted + [WriteComplete];
        }
      case Broken =>
        faultError := true;
      case _ =>
      }
    }

    /** The second half of sendInLoop. */
    method Queue(rest: seq<Byte>)
      requires Valid() && rest != []
      modifies this, outputBuffer
      ensures Valid() && View() == Queued(old(View()), rest)
    {
      var oldLen := outputBuffer.ReadableBytes();
      if oldLen + |rest| >= highWaterMark && oldLen < highWaterMark && highWaterMarkCallback {
        posted := posted + [HighWater(oldLen + |rest|)];
      }
      outputBuffer.Append(rest);
      if !writing {
        writing := true;
      }
    }

    method ShutdownWriteSide()
      requires Valid()
      modifies this
      ensures Valid() && View() == ShutdownInLoop(old(View()))
    {
      shutdownAsked := true;
      if !writing {
        shutdowns := shutdowns + [ShutdownCall(state, outputBuffer.ReadableBytes())];
      }
    }

    method Writable(w: WriteResult)
      requires Valid() && PossibleWrite(w, |outputBuffer.Readable()|)
      modifies this, outputBuffer
      ensures Valid() && View() == HandleWrite(old(View()), w)
    {
      if writing {
        if w.Wrote? && w.n > 0 {
          kernel := kernel + outputBuffer.Peek()[..w.n];
          outputBuffer.Retrieve(w.n);
          if outputBuffer.ReadableBytes() == 0 {
            writing := false;
            if writeCompleteCallback {
              posted := posted + [WriteComplete];
            }
            if state == Disconnecting {
              ShutdownWriteSide();
            }
          }
        }
      }
    }

    method Close()
      requires Valid() && (state == Connected || state == Disconnecting)
      modifies this
      ensures Valid() && View() == HandleClose(old(View()))
    {
      state := Disconnected;
      reading, writing := false, false;
    }

    /** handleRead: bytes go to the input buffer, end of file closes, an error does neither. */
    method Readable(n: ReadResult)
      requires Valid() && (n == Got([]) ==> state == Connected || state == Disconnecting)
      requires n.Got? ==> |n.bytes| <= inputBuffer.ReadCapacity()
      modifies this, inputBuffer
      ensures Valid()
      ensures View() == if n == Got([]) then HandleClose(old(View())) else old(View())
      ensures inputBuffer.Readable() == old(inputBuffer.Readable()) + if n.Got? then n.bytes else []
    {
      var count, savedErrno := inputBuffer.ReadFd(n);
      if count == 0 {
        Close();
      }
    }
  }
}
