/**
  The steps of the output side of a connection, told by the bytes, callbacks and states seen from outside,
  and that a shutdown asked for happens.
 */
module TcpOutput {
  import opened BigEndian
  import opened ConnectionState
  import opened TcpConnection

  /** How many bytes write(2) took. */
  function Taken(w: WriteResult): nat { if w.Wrote? then w.n else 0 }

  /**
    A send: with nothing queued the kernel is asked at once and the rest is queued; otherwise everything is
    queued; a message is given up only when the connection is down, or at once broken.
   */
  lemma SendExactly(c: Conn, data: seq<Byte>, w: WriteResult)
    requires Inv(c) && Enabled(c, SendStep(data, w))
    ensures var d := Apply(c, SendStep(data, w));
            var idle := !c.writing && c.output == [];
            if c.state == Disconnected || (idle && w.Broken?) then d == c
            else
              && d.kernel == (if idle then c.kernel + data[..Taken(w)] else c.kernel)
              && d.output == (if idle then data[Taken(w)..] else c.output + data)
              && d.posted == c.posted
                   + (if idle && w == Wrote(|data|) && c.wantWriteComplete then [WriteComplete] else [])
                   + (if c.wantHighWater && |c.output| < c.mark <= |d.output| then [HighWater(|d.output|)] else [])
              && d.writing == (d.output != []) && d.state == c.state && d.shutdowns == c.shutdowns
  {
    assert c.posted + [] == c.posted && c.posted + [] + [] == c.posted;
    if c.state == Disconnected || (!c.writing && c.output == [] && w.Broken?) {
    } else if !c.writing && c.output == [] {
      assert c.kernel + data[..0] == c.kernel && data[0..] == data && [] + data == data;
      if w.Wrote? {
        assert [] + data[w.n..] == data[w.n..];
      }
    } else {
      assert c.output + [] == c.output;
    }
  }

  /** No byte of a message that counts is lost: kernel and queue together grow by exactly the message. */
  lemma SendAddsMessage(c: Conn, data: seq<Byte>, w: WriteResult)
    requires Inv(c) && Enabled(c, SendStep(data, w))
    requires c.state != Disconnected && !(!c.writing && c.output == [] && w.Broken?)
    ensures var d := Apply(c, SendStep(data, w)); d.kernel + d.output == c.kernel + c.output + data
  {
    SendExactly(c, data, w);
    hide Apply, Inv;
    if !c.writing && c.output == [] {
      Regrouped(c.kernel, data, Taken(w));
      assert c.kernel + c.output == c.kernel;
    } else {
      Associated(c.kernel, c.output, data);
    }
  }

  lemma Regrouped(a: seq<Byte>, b: seq<Byte>, n: nat)
    requires n <= |b|
    ensures a + b[..n] + b[n..] == a + b
  {}

  lemma Associated(a: seq<Byte>, b: seq<Byte>, c: seq<Byte>)
    ensures a + (b + c) == a + b + c
  {}

  /** A writable event: what the kernel takes leaves the front of the queue; draining it has its consequences. */
  lemma WriteExactly(c: Conn, w: WriteResult)
    requires Inv(c) && Enabled(c, WriteStep(w))
    ensures var d := Apply(c, WriteStep(w));
            if !c.writing || Taken(w) == 0 then d == c
            else
              && d.kernel == c.kernel + c.output[..w.n] && d.output == c.output[w.n..]
              && d.writing == (d.output != []) && d.state == c.state
              && d.posted == c.posted + (if d.output == [] && c.wantWriteComplete then [WriteComplete] else [])
              && d.shutdowns == c.shutdowns
                   + (if d.output == [] && c.state == Disconnecting then [ShutdownCall(Disconnecting, 0)] else [])
  {}

  /** The other steps: what they do to the state, the interest and the write side; bytes they leave alone. */
  lemma StateExactly(c: Conn, step: Step)
    requires Inv(c) && Enabled(c, step) && !step.SendStep? && !step.WriteStep?
    ensures var d := Apply(c, step);
            && d.kernel == c.kernel && d.output == c.output && d.posted == c.posted
            && d.state == (match step
                           case ShutdownStep => if c.state == Connected then Disconnecting else c.state
                           case ForceCloseStep => if c.state == Connected then Disconnecting else c.state
                           case CloseStep => Disconnected
                           case EstablishStep => Connected
                           case DestroyStep => if c.state == Connected then Disconnected else c.state
                           case _ => c.state)
            && (d.state == Disconnected && c.state != Disconnected ==> !d.reading && !d.writing)
            && (step.EstablishStep? ==> d.reading)
            && d.shutdowns == c.shutdowns
                 + (if step.ShutdownInLoopStep? && !c.writing then [ShutdownCall(c.state, |c.output|)] else [])
  {}

  // ---------- a shutdown asked for happens ----------

  /** The write side has been shut more than n times, or bytes that come first are queued, or the connection is down. */
  predicate ShutOrWaiting(c: Conn, n: nat) {
    || c.state == Disconnected
    || (c.state == Disconnecting && (|c.shutdowns| > n || c.output != []))
  }

  lemma StepWaits(c: Conn, step: Step, n: nat)
    requires Inv(c) && Enabled(c, step) && ShutOrWaiting(c, n) && |c.shutdowns| >= n
    ensures var d := Apply(c, step); ShutOrWaiting(d, n) && |d.shutdowns| >= n
  {
    hide StreamIntact, GracefulShutdowns, ShutdownPending;
  }

  /**
    Once shutdownInLoop has run on a connection that is closing, the write side has been shut as soon as
    nothing is queued any more, unless the connection has gone down.
   */
  lemma {:induction false} ShutdownHappens(c: Conn, steps: seq<Step>)
    requires Inv(c) && c.state == Disconnecting && LegalRun(c, [ShutdownInLoopStep] + steps)
    ensures var d := Run(c, [ShutdownInLoopStep] + steps);
            d.state != Disconnected && d.output == [] ==> |d.shutdowns| > |c.shutdowns|
  {
    var n := |c.shutdowns|;
    assert ([ShutdownInLoopStep] + steps)[1..] == steps;
    var d := Apply(c, ShutdownInLoopStep);
    StepKeeps(c, ShutdownInLoopStep);
    assert ShutOrWaiting(d, n) && |d.shutdowns| >= n;
    RunWaits(d, steps, n);
  }

  lemma {:induction false} RunWaits(c: Conn, steps: seq<Step>, n: nat)
    requires Inv(c) && LegalRun(c, steps) && ShutOrWaiting(c, n) && |c.shutdowns| >= n
    ensures ShutOrWaiting(Run(c, steps), n)
    decreases |steps|
  {
    hide Inv, Apply, Enabled;
    if steps != [] {
      StepKeeps(c, steps[0]);
      StepWaits(c, steps[0], n);
      RunWaits(Apply(c, steps[0]), steps[1..], n);
    }
  }
}
