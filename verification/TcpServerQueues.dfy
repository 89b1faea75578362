/**
  What the functor queues of the connection lifecycle hold: connectDestroyed is the last functor about its
  connection, so that the functors bound to a bare pointer run before it, and the queues can always be emptied.
 */
module TcpServerQueues {
  import opened ConnectionState
  import opened TcpServer

  // ---------- connectDestroyed comes last ----------

  /** Nothing about a connection stands behind its connectDestroyed, and nothing about a destroyed one is queued. */
  predicate QueueLast(conns: map<ConnId, Conn>, q: seq<Task>) {
    && (forall i, j :: 0 <= i < j < |q| && q[i].Destroy? ==> q[j].c != q[i].c)
    && (forall t :: t in q && t.c in conns ==> conns[t.c].destroyed == 0)
  }

  predicate LastOk(w: World) {
    forall l :: 0 <= l < |w.loops| ==> QueueLast(w.conns, w.loops[l].queue)
  }

  lemma LastChanged(w: World, c: ConnId, conn: Conn, connections: set<ConnId>)
    requires LastOk(w) && c in w.conns && conn.destroyed == w.conns[c].destroyed
    ensures LastOk(Changed(w, c, conn, connections))
  {
    var v := Changed(w, c, conn, connections);
    forall l | 0 <= l < |v.loops| ensures QueueLast(v.conns, v.loops[l].queue) {
      assert QueueLast(w.conns, w.loops[l].queue);
    }
  }

  lemma LastPosted(w: World, l: LoopId, t: Task)
    requires LastOk(w) && l < |w.loops| && Destroy(t.c) !in w.loops[l].queue
    requires t.c in w.conns && w.conns[t.c].destroyed == 0
    ensures LastOk(Post(w, l, t))
  {
    var v := Post(w, l, t);
    forall k | 0 <= k < |v.loops| ensures QueueLast(v.conns, v.loops[k].queue) {
      assert QueueLast(w.conns, w.loops[k].queue);
      if k == l {
        var q := w.loops[l].queue;
        forall i, j | 0 <= i < j < |q + [t]| && (q + [t])[i].Destroy? ensures (q + [t])[j].c != (q + [t])[i].c {
          assert q[i] in q && q[i] == Destroy(q[i].c);
        }
      }
    }
  }

  /** While no connectDestroyed is due, none is queued anywhere. */
  lemma NoDestroyQueued(w: World, inHand: multiset<Task>, c: ConnId, l: LoopId)
    requires Inv(w, inHand) && c in w.conns && w.conns[c].erased == w.conns[c].destroyed && l < |w.loops|
    ensures Destroy(c) !in w.loops[l].queue
  {
    hide PhaseOk, StageOk;
    assert ConnOk(w, inHand, c);
    assert QueueOk(w.conns, l, w.loops[l].queue);
    assert Times(w.loops, w.conns[c].loop, Destroy(c)) == 0;
  }

  lemma FitsCounts(loops: seq<Loop>, inMap: bool, inHand: multiset<Task>, c: ConnId, conn: Conn)
    requires ConnFits(loops, inMap, inHand, c, conn)
    ensures conn.polled || conn.state == Connecting ==> conn.erased == conn.destroyed == 0
    ensures inHand[Remove(c)] > 0 ==> conn.erased == conn.destroyed == 0
  {
    hide Times;
  }

  lemma RemoveLast(w: World, c: ConnId)
    requires c in w.conns && Inv(w, multiset{Remove(c)}) && LastOk(w) && w.conns[c].loop < |w.loops|
    ensures LastOk(RemoveNow(w, c))
  {
    hide LoopsOk, ConnFits, LastOk;
    assert ConnOk(w, multiset{Remove(c)}, c);
    FitsCounts(w.loops, c in w.connections, multiset{Remove(c)}, c, w.conns[c]);
    NoDestroyQueued(w, multiset{Remove(c)}, c, w.conns[c].loop);
    ErasedOk(w.loops, c in w.connections, c, w.conns[c]);
    var conn := w.conns[c].(erased := w.conns[c].erased + 1);
    LastChanged(w, c, conn, w.connections - {c});
    LastPosted(Changed(w, c, conn, w.connections - {c}), conn.loop, Destroy(c));
  }

  lemma CloseLast(w: World, c: ConnId)
    requires c in w.conns && Inv(w, NOTHING) && LastOk(w) && w.conns[c].polled && NotActive(w, c)
    requires w.conns[c].loop < |w.loops|
    ensures LastOk(CloseNow(w, c))
  {
    hide LoopsOk, ConnFits, LastOk, NotActive, Times;
    assert ConnOk(w, NOTHING, c);
    FitsCounts(w.loops, c in w.connections, NOTHING, c, w.conns[c]);
    NoDestroyQueued(w, NOTHING, c, BASE);
    ClosedFits(w.loops, c in w.connections, c, w.conns[c]);
    var v := Disconnect(w, c);
    LastChanged(w, c, Closed(w.conns[c]), w.connections);
    ChangeKeeps(w, NOTHING, multiset{Remove(c)}, c, Closed(w.conns[c]), w.connections);
    hide Inv;
    if w.conns[c].loop == BASE {
      RemoveLast(v, c);
    } else {
      LastPosted(v, BASE, Remove(c));
    }
  }

  /** After the last functor about a connection, no queue mentions it. */
  lemma DestroyLast(w: World, c: ConnId)
    requires c in w.conns && Inv(w, multiset{Destroy(c)}) && LastOk(w) && w.conns[c].loop < |w.loops|
    requires forall t :: t in w.loops[w.conns[c].loop].queue ==> t.c != c
    ensures LastOk(DestroyNow(w, c))
  {
    hide ConnFits, PhaseOk;
    var v := DestroyNow(w, c);
    assert ConnOk(w, multiset{Destroy(c)}, c);
    NoRemoveQueued(w.loops, c in w.connections, c, w.conns[c]);
    forall l | 0 <= l < |v.loops| ensures QueueLast(v.conns, v.loops[l].queue) {
      assert QueueLast(w.conns, w.loops[l].queue) && QueueOk(w.conns, l, w.loops[l].queue);
    }
  }

  lemma NoRemoveQueued(loops: seq<Loop>, inMap: bool, c: ConnId, conn: Conn)
    requires ConnFits(loops, inMap, multiset{Destroy(c)}, c, conn)
    ensures BASE < |loops| ==> Remove(c) !in loops[BASE].queue
  {}

  lemma PerformLast(w: World, t: Task)
    requires t.c in w.conns && Inv(w, multiset{t}) && LastOk(w) && w.conns[t.c].loop < |w.loops| && NotActive(w, t.c)
    requires t.Destroy? ==> forall t' :: t' in w.loops[w.conns[t.c].loop].queue ==> t'.c != t.c
    ensures LastOk(Perform(w, t))
  {
    hide LoopsOk, ConnFits, NotActive;
    match t
    case Establish(c) =>
      LastChanged(w, c, Established(w.conns[c]), w.connections);
    case Remove(c) => RemoveLast(w, c);
    case Destroy(c) => DestroyLast(w, c);
    case ForceClose(c) =>
      DropKeeps(w, t);
      assert ConnOk(w, NOTHING, c);
      if w.conns[c].state == Connected || w.conns[c].state == Disconnecting {
        UpIsPolled(w.loops, c in w.connections, c, w.conns[c]);
        CloseLast(w, c);
      }
    case Other(_) =>
  }

  lemma UpIsPolled(loops: seq<Loop>, inMap: bool, c: ConnId, conn: Conn)
    requires ConnFits(loops, inMap, NOTHING, c, conn) && (conn.state == Connected || conn.state == Disconnecting)
    ensures conn.polled
  {
    hide Times;
  }

  lemma LastPopped(w: World, l: LoopId)
    requires LastOk(w) && l < |w.loops| && w.loops[l].queue != []
    requires w.loops[l].phase.Functors? && w.loops[l].phase.left > 0
    ensures LastOk(Popped(w, l))
    ensures var t := w.loops[l].queue[0]; t.Destroy? ==> forall t' :: t' in Popped(w, l).loops[l].queue ==> t'.c != t.c
  {
    var v := Popped(w, l);
    var q := w.loops[l].queue;
    assert QueueLast(w.conns, q);
    forall t' | t' in q[1..] && q[0].Destroy? ensures t'.c != q[0].c {
      var j :| 0 <= j < |q[1..]| && q[1..][j] == t';
      assert q[j + 1] == t';
    }
    forall k | 0 <= k < |v.loops| ensures QueueLast(v.conns, v.loops[k].queue) {
      assert QueueLast(w.conns, w.loops[k].queue);
    }
  }

  lemma PhaseLast(w: World, l: LoopId, phase: Phase)
    requires LastOk(w) && l < |w.loops|
    ensures LastOk(SetPhase(w, l, phase))
  {
    var v := SetPhase(w, l, phase);
    forall k | 0 <= k < |v.loops| ensures QueueLast(v.conns, v.loops[k].queue) {
      assert QueueLast(w.conns, w.loops[k].queue);
    }
  }

  lemma AcceptLast(w: World, l: LoopId)
    requires Safe(w) && LastOk(w) && l < |w.loops|
    ensures LastOk(AcceptNow(w, l))
  {
    hide ConnFits;
    var n := w.nextConnId;
    var u := Accepted(w, l);
    forall k | 0 <= k < |u.loops| ensures QueueLast(u.conns, u.loops[k].queue) && Destroy(n) !in u.loops[k].queue {
      assert QueueLast(w.conns, w.loops[k].queue) && QueueOk(w.conns, k, w.loops[k].queue);
    }
    hide Inv, LoopsOk;
    if l == BASE {
      LastChanged(u, n, Established(u.conns[n]), u.connections);
    } else {
      LastPosted(u, l, Establish(n));
    }
  }

  lemma UserLast(w: World, c: ConnId, t: Task)
    requires Safe(w) && LastOk(w) && c in w.conns && t.c == c && (t.ForceClose? || t.Other?)
    requires w.conns[c].state == Connected || w.conns[c].state == Disconnecting
    ensures w.conns[c].loop < |w.loops|
    ensures LastOk(SetState(w, c, Disconnecting)) && LastOk(Post(SetState(w, c, Disconnecting), w.conns[c].loop, t))
  {
    hide LoopsOk, ConnFits, LastOk;
    assert ConnOk(w, NOTHING, c);
    FitsLoop(w.loops, c in w.connections, NOTHING, c, w.conns[c]);
    UpIsPolled(w.loops, c in w.connections, c, w.conns[c]);
    FitsCounts(w.loops, c in w.connections, NOTHING, c, w.conns[c]);
    NoDestroyQueued(w, NOTHING, c, w.conns[c].loop);
    var v := SetState(w, c, Disconnecting);
    assert v == Changed(w, c, w.conns[c].(state := Disconnecting), w.connections);
    LastChanged(w, c, w.conns[c].(state := Disconnecting), w.connections);
    LastPosted(v, w.conns[c].loop, t);
  }

  lemma HandleEventLast(w: World, l: LoopId, e: Event)
    requires Safe(w) && LastOk(w) && Enabled(w, HandleEvent(l, e))
    ensures LastOk(Apply(w, HandleEvent(l, e)))
  {
    ActiveIsPolled(w, l);
    var active := w.loops[l].phase.active;
    var v := SetPhase(w, l, Handling(active[1..]));
    PhaseLast(w, l, Handling(active[1..]));
    DispatchNextSafe(w, l);
    hide Inv, NotActive, LastOk;
    CloseLast(v, active[0]);
  }

  lemma DispatchNextSafe(w: World, l: LoopId)
    requires Safe(w) && l < |w.loops| && w.loops[l].phase.Handling? && w.loops[l].phase.active != []
    ensures Safe(SetPhase(w, l, Handling(w.loops[l].phase.active[1..])))
  {
    hide ConnFits, QueueOk;
    var active := w.loops[l].phase.active;
    assert PhaseOk(w.conns, l, w.loops[l]);
    assert forall c :: c in active[1..] ==> c in active;
    PhaseKeeps(w, l, Handling(active[1..]));
  }

  lemma StepLast(w: World, step: Step)
    requires Safe(w) && LastOk(w) && Enabled(w, step)
    ensures LastOk(Apply(w, step))
  {
    hide LoopsOk, ConnFits, NotActive, LastOk;
    match step
    case Accept(l) => AcceptLast(w, l);
    case Poll(l, active) => PhaseLast(w, l, Handling(active));
    case HandleEvent(l, e) => HandleEventLast(w, l, e);
    case StartFunctors(l) => PhaseLast(w, l, Functors(|w.loops[l].queue|));
    case RunFunctor(l) =>
      HeadIsAtHome(w, l);
      LastPopped(w, l);
      PerformLast(Popped(w, l), w.loops[l].queue[0]);
    case EndFunctors(l) => PhaseLast(w, l, Polling);
    case UserShutdown(c, fromOwnLoop) =>
      if w.conns[c].state == Connected {
        UserLast(w, c, Other(c));
      }
    case UserForceClose(c) =>
      if w.conns[c].state == Connected || w.conns[c].state == Disconnecting {
        UserLast(w, c, ForceClose(c));
      }
  }

  lemma {:induction false} RunLast(w: World, steps: seq<Step>)
    requires Safe(w) && LastOk(w) && LegalRun(w, steps)
    ensures LastOk(Run(w, steps))
    decreases |steps|
  {
    hide Safe, Apply, Enabled, LastOk;
    if steps != [] {
      StepLast(w, steps[0]);
      RunLast(Next(w, steps[0]), steps[1..]);
    }
  }

  /**
    In every reachable world connectDestroyed is the last functor about its connection in its queue, and
    once it has run no queue holds a functor about that connection.
   */
  lemma DestroyIsLast(extraLoops: nat, steps: seq<Step>)
    requires (InitialSafe(extraLoops); LegalRun(Initial(extraLoops), steps))
    ensures var w := Run(Initial(extraLoops), steps);
            && (forall l, i, j ::
                  0 <= l < |w.loops| && 0 <= i < j < |w.loops[l].queue| && w.loops[l].queue[i].Destroy? ==>
                    w.loops[l].queue[j].c != w.loops[l].queue[i].c)
            && (forall c, l, t ::
                  c in w.conns && w.conns[c].destroyed == 1 && 0 <= l < |w.loops| && t in w.loops[l].queue ==>
                    t.c != c)
  {
    InitialSafe(extraLoops);
    RunLast(Initial(extraLoops), steps);
    hide Run, LegalRun, Safe;
    var w := Run(Initial(extraLoops), steps);
    forall l | 0 <= l < |w.loops| ensures QueueLast(w.conns, w.loops[l].queue) {}
  }

  // ---------- the queues can always be emptied ----------

  /** How many functors a functor can lead to, itself included. */
  function TaskWeight(t: Task): nat {
    match t
    case ForceClose(_) => 3
    case Remove(_) => 2
    case _ => 1
  }

  function QueueWeight(q: seq<Task>): nat {
    if q == [] then 0 else TaskWeight(q[0]) + QueueWeight(q[1..])
  }

  function Weight(loops: seq<Loop>): nat {
    if loops == [] then 0 else QueueWeight(loops[0].queue) + Weight(loops[1..])
  }

  lemma {:induction false} QueueWeightLast(q: seq<Task>, t: Task)
    ensures QueueWeight(q + [t]) == QueueWeight(q) + TaskWeight(t)
  {
    if q == [] {
      assert q + [t] == [t];
    } else {
      QueueWeightLast(q[1..], t);
      assert (q + [t])[1..] == q[1..] + [t];
    }
  }

  lemma {:induction false} WeightUpdated(loops: seq<Loop>, l: nat, loop: Loop)
    requires l < |loops|
    ensures Weight(loops[l := loop]) == Weight(loops) - QueueWeight(loops[l].queue) + QueueWeight(loop.queue)
  {
    if l == 0 {
      assert loops[l := loop][1..] == loops[1..];
    } else {
      WeightUpdated(loops[1..], l - 1, loop);
      assert loops[l := loop][1..] == loops[1..][l - 1 := loop];
    }
  }

  lemma PostWeight(w: World, l: LoopId, t: Task)
    requires l < |w.loops|
    ensures Weight(Post(w, l, t).loops) == Weight(w.loops) + TaskWeight(t)
  {
    QueueWeightLast(w.loops[l].queue, t);
    WeightUpdated(w.loops, l, w.loops[l].(queue := w.loops[l].queue + [t]));
  }

  lemma RemoveWeight(w: World, c: ConnId)
    requires c in w.conns && w.conns[c].loop < |w.loops|
    ensures Weight(RemoveNow(w, c).loops) <= Weight(w.loops) + 1
  {
    if c in w.connections {
      var conn := w.conns[c];
      PostWeight(w.(connections := w.connections - {c}, conns := w.conns[c := conn.(erased := conn.erased + 1)]),
                 conn.loop, Destroy(c));
    }
  }

  lemma CloseWeight(w: World, c: ConnId)
    requires c in w.conns && w.conns[c].loop < |w.loops|
    ensures Weight(CloseNow(w, c).loops) <= Weight(w.loops) + 2
  {
    RemoveWeight(Disconnect(w, c), c);
    if BASE < |w.loops| {
      PostWeight(Disconnect(w, c), BASE, Remove(c));
    }
  }

  /** Running a functor makes less work than it was. */
  lemma PerformWeight(w: World, t: Task)
    requires t.c in w.conns && w.conns[t.c].loop < |w.loops|
    ensures Weight(Perform(w, t).loops) < Weight(w.loops) + TaskWeight(t)
  {
    hide Weight, RemoveNow, CloseNow;
    match t
    case Remove(c) => RemoveWeight(w, c);
    case ForceClose(c) => CloseWeight(w, c);
    case _ =>
  }

  lemma RunFunctorWeight(w: World, l: LoopId)
    requires Safe(w) && Enabled(w, RunFunctor(l))
    ensures Weight(Apply(w, RunFunctor(l)).loops) < Weight(w.loops)
  {
    HeadIsAtHome(w, l);
    hide Inv, NotActive, Perform;
    var t := w.loops[l].queue[0];
    WeightUpdated(w.loops, l, Loop(w.loops[l].queue[1..], Functors(w.loops[l].phase.left - 1)));
    PerformWeight(Popped(w, l), t);
  }

  lemma {:induction false} RunJoined(w: World, a: seq<Step>, b: seq<Step>)
    requires Safe(w) && LegalRun(w, a) && LegalRun(Run(w, a), b)
    ensures LegalRun(w, a + b) && Run(w, a + b) == Run(Run(w, a), b)
    decreases |a|
  {
    hide Safe, Next, Enabled;
    if a == [] {
      assert a + b == b;
    } else {
      RunJoined(Next(w, a[0]), a[1..], b);
      assert (a + b)[1..] == a[1..] + b;
    }
  }

  lemma RunSingle(w: World, step: Step)
    requires Safe(w) && Enabled(w, step)
    ensures LegalRun(w, [step]) && Run(w, [step]) == Next(w, step)
  {
    hide Safe, Next, Enabled;
    assert [step][1..] == [];
    assert LegalRun(Next(w, step), []);
  }

  predicate QueuesSame(w: World, v: World) {
    |w.loops| == |v.loops| && forall l :: 0 <= l < |w.loops| ==> v.loops[l].queue == w.loops[l].queue
  }

  lemma {:induction false} WeightSame(a: seq<Loop>, b: seq<Loop>)
    requires |a| == |b| && forall l :: 0 <= l < |a| ==> a[l].queue == b[l].queue
    ensures Weight(a) == Weight(b)
  {
    if a != [] {
      WeightSame(a[1..], b[1..]);
    }
  }

  /** A read that brings data. */
  const DATA: Event := Event(false, true, false, false, false)

  /** The next step of loop l on its way to the next functor. */
  function Advance(w: World, l: LoopId): Step
    requires l < |w.loops|
  {
    match w.loops[l].phase
    case Polling => Poll(l, [])
    case Handling(active) => if active == [] then StartFunctors(l) else HandleEvent(l, DATA)
    case Functors(left) => if left == 0 then EndFunctors(l) else RunFunctor(l)
  }

  function Distance(phase: Phase): nat {
    match phase
    case Functors(left) => if left == 0 then 2 else 0
    case Polling => 1
    case Handling(active) => if active == [] then 0 else |active|
  }

  /** Until it runs a functor, a loop that advances leaves all queues as they are and gets closer to it. */
  lemma AdvanceStep(w: World, l: LoopId)
    requires Safe(w) && l < |w.loops|
    ensures Enabled(w, Advance(w, l))
    ensures var v := Next(w, Advance(w, l));
            !Advance(w, l).RunFunctor? ==>
              && QueuesSame(w, v) && l < |v.loops|
              && (if Advance(w, l).StartFunctors? then v.loops[l].phase == Functors(|w.loops[l].queue|)
                  else Distance(v.loops[l].phase) < Distance(w.loops[l].phase))
  {
    hide Inv, NotActive;
    if Advance(w, l).HandleEvent? {
      ActiveIsPolled(w, l);
    }
  }

  /** Brings loop l to the point where it runs a functor. */
  lemma ToFunctor(w: World, l: LoopId) returns (steps: seq<Step>)
    requires Safe(w) && l < |w.loops| && w.loops[l].queue != []
    ensures LegalRun(w, steps) && QueuesSame(w, Run(w, steps)) && Enabled(Run(w, steps), RunFunctor(l))
    decreases Distance(w.loops[l].phase)
  {
    hide Safe, Next;
    AdvanceStep(w, l);
    var step := Advance(w, l);
    if step.RunFunctor? {
      steps := [];
    } else {
      RunSingle(w, step);
      var rest := [];
      if !step.StartFunctors? {
        rest := ToFunctor(Next(w, step), l);
      }
      RunJoined(w, [step], rest);
      steps := [step] + rest;
    }
  }

  predicate Drained(w: World) { forall l :: 0 <= l < |w.loops| ==> w.loops[l].queue == [] }

  /** From every world that keeps the invariant some run empties all queues. */
  lemma Drain(w: World) returns (steps: seq<Step>)
    requires Safe(w)
    ensures LegalRun(w, steps) && Drained(Run(w, steps))
    decreases Weight(w.loops)
  {
    hide Safe, Next, Weight, Enabled;
    if Drained(w) {
      steps := [];
    } else {
      var l :| 0 <= l < |w.loops| && w.loops[l].queue != [];
      var a := ToFunctor(w, l);
      var v := Run(w, a);
      WeightSame(w.loops, v.loops);
      RunFunctorWeight(v, l);
      NextIs(v, RunFunctor(l));
      var u := Next(v, RunFunctor(l));
      RunSingle(v, RunFunctor(l));
      var b := Drain(u);
      RunJoined(v, [RunFunctor(l)], b);
      RunJoined(w, a, [RunFunctor(l)] + b);
      steps := a + ([RunFunctor(l)] + b);
    }
  }

  lemma NextIs(w: World, step: Step)
    requires Safe(w) && Enabled(w, step)
    ensures Next(w, step) == Apply(w, step)
  {}

  /** So every connection of a reachable world can be brought to rest: up and in the map, or completely gone. */
  lemma AlwaysSettles(extraLoops: nat, steps: seq<Step>) returns (more: seq<Step>)
    requires (InitialSafe(extraLoops); LegalRun(Initial(extraLoops), steps))
    ensures (InitialSafe(extraLoops); LegalRun(Run(Initial(extraLoops), steps), more))
    ensures (InitialSafe(extraLoops);
             var w := Run(Run(Initial(extraLoops), steps), more);
             && Drained(w)
             && forall c :: c in w.conns ==> Settled(w.conns[c], c in w.connections))
  {
    InitialSafe(extraLoops);
    hide Run, LegalRun, Settled;
    var v := Run(Initial(extraLoops), steps);
    more := Drain(v);
    var w := Run(v, more);
    forall c | c in w.conns ensures Settled(w.conns[c], c in w.connections) {
      DrainedWorld(w, c);
    }
  }
}
