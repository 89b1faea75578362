/**
  What the steps of the connection lifecycle do to the world, told by what is seen from outside: which
  events close a connection, what a new connection starts with, and that a forced close happens.
 */
module TcpServerEvents {
  import opened ConnectionState
  import opened TcpServer

  // ---------- events ----------

  /** Loop k with some functors posted and its program counter set. */
  predicate LoopIs(loop: Loop, was: Loop, posted: seq<Task>, phase: Phase) {
    loop.queue == was.queue + posted && loop.phase == phase
  }

  lemma DispatchExactly(w: World, c: ConnId, e: Event)
    requires Safe(w) && c in w.conns && w.conns[c].polled && NotActive(w, c) && w.conns[c].loop < |w.loops|
    requires !ClosesTwice(e)
    ensures var v := Dispatch(w, c, e);
            if (e.hup && !e.in_) || ((e.in_ || e.priOrRdhup) && e.endOfFile) then
              && c in v.conns && v.conns[c].state == Disconnected && !v.conns[c].polled
              && v.conns[c].closes == w.conns[c].closes + 1 && v.conns[c].down == w.conns[c].down + 1
            else v == w
  {
    hide LoopsOk, NotActive;
    assert ConnOk(w, NOTHING, c);
    ClosedFits(w.loops, c in w.connections, c, w.conns[c]);
    hide Inv, ConnFits;
  }

  /**
    The next channel that poll returned: if the peer hung up without data, or the event is readable and the
    read finds the end of the stream, the connection goes down and the next hop of its removal waits on the
    base loop; otherwise nothing but the program counter of the loop changes.
   */
  lemma HandleEventExactly(w: World, l: LoopId, e: Event)
    requires Safe(w) && Enabled(w, HandleEvent(l, e))
    ensures var v := Apply(w, HandleEvent(l, e));
            var active := w.loops[l].phase.active;
            var c := active[0];
            var closes := (e.hup && !e.in_) || ((e.in_ || e.priOrRdhup) && e.endOfFile);
            && c in w.conns && w.conns[c].loop == l && c in w.connections
            && v.conns == (if closes then
                 w.conns[c := w.conns[c].(state := Disconnected, polled := false,
                                          down := 1, closes := 1, erased := if l == 0 then 1 else 0)]
               else w.conns)
            && v.connections == (if closes && l == 0 then w.connections - {c} else w.connections)
            && v.nextConnId == w.nextConnId && |v.loops| == |w.loops|
            && forall k :: 0 <= k < |w.loops| ==>
                 LoopIs(v.loops[k], w.loops[k],
                        if closes && k == 0 then [if l == 0 then Destroy(c) else Remove(c)] else [],
                        if k == l then Handling(active[1..]) else w.loops[k].phase)
  {
    hide Inv, NotActive, ConnFits, CloseNow;
    ActiveIsPolled(w, l);
    var active := w.loops[l].phase.active;
    var c := active[0];
    ActiveCounts(w, c);
    CloseExactly(SetPhase(w, l, Handling(active[1..])), c);
  }

  lemma ActiveCounts(w: World, c: ConnId)
    requires Safe(w) && c in w.conns && w.conns[c].polled
    ensures c in w.connections && w.conns[c].up == 1
    ensures w.conns[c].down == w.conns[c].closes == w.conns[c].erased == 0
    ensures w.conns[c].state == Connected || w.conns[c].state == Disconnecting
    ensures w.conns[c].loop < |w.loops|
  {
    hide LoopsOk, ConnFits;
    assert ConnOk(w, NOTHING, c);
    UpCounts(w.loops, c in w.connections, c, w.conns[c]);
    FitsLoop(w.loops, c in w.connections, NOTHING, c, w.conns[c]);
  }

  lemma CloseExactly(w: World, c: ConnId)
    requires c in w.conns && w.conns[c].loop < |w.loops| && c in w.connections
    requires w.conns[c].state == Connected || w.conns[c].state == Disconnecting
    requires w.conns[c].down == w.conns[c].closes == w.conns[c].erased == 0
    ensures var v, l := CloseNow(w, c), w.conns[c].loop;
            && v.conns == w.conns[c := w.conns[c].(state := Disconnected, polled := false,
                                                   down := 1, closes := 1, erased := if l == 0 then 1 else 0)]
            && v.connections == (if l == 0 then w.connections - {c} else w.connections)
            && v.nextConnId == w.nextConnId && |v.loops| == |w.loops|
            && forall k :: 0 <= k < |w.loops| ==>
                 LoopIs(v.loops[k], w.loops[k], if k == 0 then [if l == 0 then Destroy(c) else Remove(c)] else [],
                        w.loops[k].phase)
  {}

  lemma UpCounts(loops: seq<Loop>, inMap: bool, c: ConnId, conn: Conn)
    requires ConnFits(loops, inMap, NOTHING, c, conn) && conn.polled
    ensures inMap && conn.up == 1 && conn.down == conn.closes == conn.erased == conn.destroyed == 0
    ensures conn.state == Connected || conn.state == Disconnecting
  {
    hide Times;
  }

  /** poll's channels all wait for dispatch, in order; nothing else changes. */
  lemma PollExactly(w: World, l: LoopId, active: seq<ConnId>)
    requires Safe(w) && Enabled(w, Poll(l, active))
    ensures var v := Apply(w, Poll(l, active));
            && v.conns == w.conns && v.connections == w.connections && |v.loops| == |w.loops|
            && forall k :: 0 <= k < |w.loops| ==>
                 LoopIs(v.loops[k], w.loops[k], [], if k == l then Handling(active) else w.loops[k].phase)
  {
    hide Inv;
  }

  // ---------- functors ----------

  /** The handshake seen from the functor in hand: what is true of its connection when it runs. */
  lemma InHand(loops: seq<Loop>, inMap: bool, c: ConnId, conn: Conn, t: Task)
    requires t.c == c && ConnFits(loops, inMap, multiset{t}, c, conn)
    ensures conn.loop < |loops|
    ensures t.Establish? ==> conn.state == Connecting && conn.up == 0
    ensures t.Remove? ==> inMap && conn.erased == 0
    ensures t.Destroy? ==>
              !inMap && conn.destroyed == 0 && conn.state == Disconnected && !conn.polled && conn.registered
    ensures t.ForceClose? && (conn.state == Connected || conn.state == Disconnecting) ==>
              inMap && conn.down == conn.closes == conn.erased == 0
  {
    hide Times;
  }

  /** The connections after functor t has run on loop l. */
  function ConnAfter(conn: Conn, t: Task, l: LoopId): Conn {
    match t
    case Establish(_) => conn.(state := Connected, polled := true, registered := true, up := 1)
    case Remove(_) => conn.(erased := 1)
    case Destroy(_) => conn.(registered := false, destroyed := 1)
    case ForceClose(_) =>
      if conn.state == Connected || conn.state == Disconnecting
      then conn.(state := Disconnected, polled := false, down := 1, closes := 1, erased := if l == 0 then 1 else 0)
      else conn
    case Other(_) => conn
  }

  /** What it posts to loop k. */
  function PostedBy(conn: Conn, t: Task, l: LoopId, k: LoopId): seq<Task> {
    if t.Remove? && k == conn.loop then [Destroy(t.c)]
    else if t.ForceClose? && (conn.state == Connected || conn.state == Disconnecting) && k == 0
    then [if l == 0 then Destroy(t.c) else Remove(t.c)]
    else []
  }

  /** What running functor t on loop l makes of a world: connections, map and queues. */
  predicate Carries(u: World, v: World, t: Task, l: LoopId)
    requires t.c in u.conns
  {
    var conn := u.conns[t.c];
    && v.conns == u.conns[t.c := ConnAfter(conn, t, l)]
    && v.connections == (if t.Remove? || (l == 0 && ConnAfter(conn, t, l).erased > conn.erased)
                         then u.connections - {t.c} else u.connections)
    && v.nextConnId == u.nextConnId && |v.loops| == |u.loops|
    && forall k :: 0 <= k < |u.loops| ==> LoopIs(v.loops[k], u.loops[k], PostedBy(conn, t, l, k), u.loops[k].phase)
  }

  /** The head of the batch is taken off and run to exactly this effect. */
  lemma RunFunctorExactly(w: World, l: LoopId)
    requires Safe(w) && Enabled(w, RunFunctor(l))
    ensures w.loops[l].queue != [] && w.loops[l].queue[0].c in w.conns
    ensures Carries(w.(loops := w.loops[l := Loop(w.loops[l].queue[1..], Functors(w.loops[l].phase.left - 1))]),
                    Apply(w, RunFunctor(l)), w.loops[l].queue[0], l)
  {
    HeadIsAtHome(w, l);
    hide Inv, NotActive, Carries, Perform;
    PerformExactly(Popped(w, l), w.loops[l].queue[0], l);
  }

  lemma PerformExactly(u: World, t: Task, l: LoopId)
    requires t.c in u.conns && Inv(u, multiset{t}) && HomeOf(u.conns, t) == l && l < |u.loops|
    requires u.conns[t.c].loop < |u.loops|
    ensures Carries(u, Perform(u, t), t, l)
  {
    assert ConnOk(u, multiset{t}, t.c);
    InHand(u.loops, t.c in u.connections, t.c, u.conns[t.c], t);
    hide Inv, ConnFits, ConnOk, Carries, RemoveNow, CloseNow, EstablishNow, DestroyNow, ForceCloseNow;
    match t
    case ForceClose(c) => ForceCloseCarries(u, c);
    case Establish(c) => EstablishCarries(u, c);
    case Remove(c) => RemoveCarries(u, c);
    case Destroy(c) => DestroyCarries(u, c);
    case Other(c) => OtherCarries(u, c);
  }

  lemma EstablishCarries(u: World, c: ConnId)
    requires c in u.conns && u.conns[c].state == Connecting && u.conns[c].up == 0
    ensures Carries(u, EstablishNow(u, c), Establish(c), u.conns[c].loop)
  {}

  lemma RemoveCarries(u: World, c: ConnId)
    requires c in u.conns && u.conns[c].loop < |u.loops| && c in u.connections && u.conns[c].erased == 0
    ensures Carries(u, RemoveNow(u, c), Remove(c), 0)
  {}

  lemma DestroyCarries(u: World, c: ConnId)
    requires c in u.conns && u.conns[c].state == Disconnected && !u.conns[c].polled && u.conns[c].registered
    requires u.conns[c].destroyed == 0
    ensures Carries(u, DestroyNow(u, c), Destroy(c), u.conns[c].loop)
  {}

  /** On a connection that is still up, as when the server goes away, connectDestroyed reports it down first. */
  lemma DestroyTakesDown(u: World, c: ConnId)
    requires c in u.conns && u.conns[c].state == Connected && u.conns[c].registered
    ensures var conn := u.conns[c];
            DestroyNow(u, c)
            == u.(conns := u.conns[c := conn.(state := Disconnected, polled := false, registered := false,
                                              down := conn.down + 1, destroyed := conn.destroyed + 1)])
  {}

  lemma ForceCloseCarries(u: World, c: ConnId)
    requires c in u.conns && u.conns[c].loop < |u.loops|
    requires u.conns[c].state == Connected || u.conns[c].state == Disconnecting ==>
               c in u.connections && u.conns[c].down == u.conns[c].closes == u.conns[c].erased == 0
    ensures Carries(u, ForceCloseNow(u, c), ForceClose(c), u.conns[c].loop)
  {
    hide CloseNow;
    if u.conns[c].state == Connected || u.conns[c].state == Disconnecting {
      CloseExactly(u, c);
    } else {
      assert u.conns[c := u.conns[c]] == u.conns;
    }
  }

  lemma OtherCarries(u: World, c: ConnId)
    requires c in u.conns
    ensures Carries(u, u, Other(c), u.conns[c].loop)
  {
    assert u.conns[c := u.conns[c]] == u.conns;
  }

  // ---------- new connections, and calls of users ----------

  /** A connection given to the base loop is up at once; on another loop it waits for its connectEstablished. */
  lemma AcceptExactly(w: World, l: LoopId)
    requires Safe(w) && Enabled(w, Accept(l))
    ensures var v := Apply(w, Accept(l));
            var n := w.nextConnId;
            && n !in w.conns && n !in w.connections && v.nextConnId == n + 1
            && v.connections == w.connections + {n}
            && v.conns == w.conns[n := if l == 0 then Conn(0, Connected, true, true, 1, 0, 0, 0, 0)
                                       else Conn(l, Connecting, false, false, 0, 0, 0, 0, 0)]
            && |v.loops| == |w.loops|
            && forall k :: 0 <= k < |w.loops| ==>
                 LoopIs(v.loops[k], w.loops[k], if k == l && l != 0 then [Establish(n)] else [], w.loops[k].phase)
  {
    assert w.connections <= w.conns.Keys && forall c :: c in w.conns ==> c < w.nextConnId;
    hide Inv;
  }

  lemma ShutdownExactly(w: World, c: ConnId, fromOwnLoop: bool)
    requires Safe(w) && Enabled(w, UserShutdown(c, fromOwnLoop))
    ensures var v := Apply(w, UserShutdown(c, fromOwnLoop));
            && v.conns == (if w.conns[c].state == Connected then w.conns[c := w.conns[c].(state := Disconnecting)]
                           else w.conns)
            && v.connections == w.connections && |v.loops| == |w.loops|
            && forall k :: 0 <= k < |w.loops| ==>
                 LoopIs(v.loops[k], w.loops[k],
                        if k == w.conns[c].loop && w.conns[c].state == Connected && !fromOwnLoop then [Other(c)]
                        else [],
                        w.loops[k].phase)
  {
    assert ConnOk(w, NOTHING, c);
    hide Inv, ConnFits;
  }

  lemma ForceCloseExactly(w: World, c: ConnId)
    requires Safe(w) && Enabled(w, UserForceClose(c))
    ensures var v := Apply(w, UserForceClose(c));
            var up := w.conns[c].state == Connected || w.conns[c].state == Disconnecting;
            && v.conns == (if up then w.conns[c := w.conns[c].(state := Disconnecting)] else w.conns)
            && v.connections == w.connections && |v.loops| == |w.loops|
            && forall k :: 0 <= k < |w.loops| ==>
                 LoopIs(v.loops[k], w.loops[k], if k == w.conns[c].loop && up then [ForceClose(c)] else [],
                        w.loops[k].phase)
  {
    assert ConnOk(w, NOTHING, c);
    hide Inv, ConnFits;
  }

  // ---------- what happens to a connection over a run ----------

  /** Down, or a forced close is on its way. */
  predicate Doomed(w: World, c: ConnId) {
    && c in w.conns && w.conns[c].loop < |w.loops| && w.conns[c].state != Connecting
    && (w.conns[c].state == Disconnected || ForceClose(c) in w.loops[w.conns[c].loop].queue)
  }

  /** Everything a function of the code may do to other connections and to the queues. */
  predicate Grows(w: World, v: World) {
    && |v.loops| == |w.loops|
    && (forall l :: 0 <= l < |w.loops| ==> w.loops[l].queue <= v.loops[l].queue)
    && (forall c :: c in w.conns ==>
          && c in v.conns && v.conns[c].loop == w.conns[c].loop
          && (v.conns[c].state == Connecting ==> w.conns[c].state == Connecting)
          && (w.conns[c].state == Disconnected ==> v.conns[c].state == Disconnected))
  }

  lemma GrowsDoomed(w: World, v: World, c: ConnId)
    requires Grows(w, v) && Doomed(w, c)
    ensures Doomed(v, c)
  {}

  lemma CloseGrows(w: World, c: ConnId)
    requires c in w.conns && w.conns[c].loop < |w.loops|
    ensures Grows(w, CloseNow(w, c))
    ensures w.conns[c].state == Connected || w.conns[c].state == Disconnecting ==>
              CloseNow(w, c).conns[c].state == Disconnected
  {
    hide Post, Grows;
    assert Grows(w, w.(failed := true)) && Grows(w, Disconnect(w, c)) by { DisconnectGrows(w, c); }
    var v := Disconnect(w, c);
    if w.conns[c].loop == BASE {
      RemoveGrows(v, c);
      GrowsTwice(w, v, RemoveNow(v, c));
    } else if BASE < |w.loops| {
      PostGrows(v, BASE, Remove(c));
      GrowsTwice(w, v, Post(v, BASE, Remove(c)));
    }
    hide RemoveNow;
    CloseIsDown(w, c);
  }

  lemma CloseIsDown(w: World, c: ConnId)
    requires c in w.conns && w.conns[c].loop < |w.loops|
    ensures w.conns[c].state == Connected || w.conns[c].state == Disconnecting ==>
              CloseNow(w, c).conns[c].state == Disconnected
  {}

  lemma DisconnectGrows(w: World, c: ConnId)
    requires c in w.conns
    ensures Grows(w, w.(failed := true)) && Grows(w, Disconnect(w, c))
  {}

  lemma RemoveGrows(w: World, c: ConnId)
    requires c in w.conns && w.conns[c].loop < |w.loops|
    ensures Grows(w, RemoveNow(w, c))
  {}

  lemma PostGrows(w: World, l: LoopId, t: Task)
    requires l < |w.loops|
    ensures Grows(w, Post(w, l, t))
  {}

  lemma GrowsTwice(u: World, v: World, w: World)
    requires Grows(u, v) && Grows(v, w)
    ensures Grows(u, w)
  {
    forall l | 0 <= l < |u.loops| ensures u.loops[l].queue <= w.loops[l].queue {
      assert u.loops[l].queue <= v.loops[l].queue && v.loops[l].queue <= w.loops[l].queue;
    }
  }

  lemma PerformGrows(w: World, t: Task)
    requires t.c in w.conns && w.conns[t.c].loop < |w.loops|
    ensures Grows(w, Perform(w, t))
    ensures t.ForceClose? && w.conns[t.c].state != Connecting ==> Perform(w, t).conns[t.c].state == Disconnected
  {
    hide CloseNow;
    CloseGrows(w, t.c);
  }

  lemma StepDoomed(w: World, step: Step, c: ConnId)
    requires Safe(w) && Enabled(w, step) && Doomed(w, c)
    ensures Doomed(Apply(w, step), c)
  {
    if step.RunFunctor? {
      hide *;
      RunFunctorDoomed(w, step.l, c);
    } else {
      OtherStepGrows(w, step);
      hide *;
      GrowsDoomed(w, Apply(w, step), c);
    }
  }

  lemma OtherStepGrows(w: World, step: Step)
    requires Safe(w) && Enabled(w, step) && !step.RunFunctor?
    ensures Grows(w, Apply(w, step))
  {
    hide LoopsOk, ConnFits, NotActive, ShutdownAsked, ForceCloseAsked, Dispatch;
    match step {
      case HandleEvent(l, e) =>
        ActiveIsPolled(w, l);
        DispatchGrows(SetPhase(w, l, Handling(w.loops[l].phase.active[1..])), w.loops[l].phase.active[0], e);
      case Accept(l) => assert w.nextConnId !in w.conns;
      case UserShutdown(d, fromOwnLoop) =>
        assert ConnOk(w, NOTHING, d);
        FitsLoop(w.loops, d in w.connections, NOTHING, d, w.conns[d]);
        AskedGrows(w, d, fromOwnLoop);
      case UserForceClose(d) =>
        assert ConnOk(w, NOTHING, d);
        FitsLoop(w.loops, d in w.connections, NOTHING, d, w.conns[d]);
        AskedGrows(w, d, false);
      case _ =>
    }
  }

  lemma AskedGrows(w: World, c: ConnId, fromOwnLoop: bool)
    requires c in w.conns && w.conns[c].loop < |w.loops|
    ensures Grows(w, ShutdownAsked(w, c, fromOwnLoop)) && Grows(w, ForceCloseAsked(w, c))
  {
    hide Grows, Post;
    assert Grows(w, w) && (w.conns[c].state != Disconnected && w.conns[c].state != Connecting ==>
                             Grows(w, SetState(w, c, Disconnecting))) by { SetStateGrows(w, c); }
    if w.conns[c].state == Connected || w.conns[c].state == Disconnecting {
      var v, l := SetState(w, c, Disconnecting), w.conns[c].loop;
      PostGrows(v, l, Other(c));
      PostGrows(v, l, ForceClose(c));
      GrowsTwice(w, v, Post(v, l, Other(c)));
      GrowsTwice(w, v, Post(v, l, ForceClose(c)));
    }
  }

  lemma SetStateGrows(w: World, c: ConnId)
    requires c in w.conns
    ensures Grows(w, w)
    ensures w.conns[c].state != Disconnected && w.conns[c].state != Connecting ==>
              Grows(w, SetState(w, c, Disconnecting))
  {}

  lemma DispatchGrows(w: World, c: ConnId, e: Event)
    requires c in w.conns && w.conns[c].loop < |w.loops|
    ensures Grows(w, Dispatch(w, c, e))
  {
    hide CloseNow;
    CloseGrows(w, c);
    CloseGrows(CloseNow(w, c), c);
  }

  lemma RunFunctorDoomed(w: World, l: LoopId, c: ConnId)
    requires Safe(w) && Enabled(w, RunFunctor(l)) && Doomed(w, c)
    ensures Doomed(Apply(w, RunFunctor(l)), c)
  {
    HeadIsAtHome(w, l);
    hide Inv, NotActive, Perform;
    var t := w.loops[l].queue[0];
    var u := Popped(w, l);
    PerformGrows(u, t);
    if t == ForceClose(c) {
      hide Popped;
    } else {
      PoppedDoomed(w, l, c);
      hide Doomed, Grows;
      GrowsDoomed(u, Perform(u, t), c);
    }
  }

  lemma PoppedDoomed(w: World, l: LoopId, c: ConnId)
    requires l < |w.loops| && w.loops[l].queue != [] && w.loops[l].phase.Functors? && w.loops[l].phase.left > 0
    requires Doomed(w, c) && w.loops[l].queue[0] != ForceClose(c)
    ensures Doomed(Popped(w, l), c)
  {
    var q := w.loops[l].queue;
    assert q == [q[0]] + q[1..];
  }

  lemma {:induction false} RunDoomed(w: World, steps: seq<Step>, c: ConnId)
    requires Safe(w) && LegalRun(w, steps) && Doomed(w, c)
    ensures Doomed(Run(w, steps), c)
    decreases |steps|
  {
    hide Safe, Apply, Enabled, Doomed;
    if steps != [] {
      StepDoomed(w, steps[0], c);
      RunDoomed(Next(w, steps[0]), steps[1..], c);
    }
  }

  /** A connection that was up when forceClose was called is down as soon as its loop has run the functor. */
  lemma ForceCloseHappens(w: World, c: ConnId, steps: seq<Step>)
    requires Safe(w) && c in w.conns && (w.conns[c].state == Connected || w.conns[c].state == Disconnecting)
    requires LegalRun(Next(w, UserForceClose(c)), steps)
    ensures var v := Run(Next(w, UserForceClose(c)), steps);
            && c in v.conns && v.conns[c].loop == w.conns[c].loop < |v.loops|
            && (ForceClose(c) !in v.loops[v.conns[c].loop].queue ==> v.conns[c].state == Disconnected)
  {
    hide Safe, Apply, Next, Run, LegalRun;
    var u := Next(w, UserForceClose(c));
    AskedDoomed(w, c);
    RunDoomed(u, steps, c);
    RunSameLoop(u, steps, c);
  }

  lemma AskedDoomed(w: World, c: ConnId)
    requires Safe(w) && c in w.conns && (w.conns[c].state == Connected || w.conns[c].state == Disconnecting)
    ensures var u := Next(w, UserForceClose(c));
            Doomed(u, c) && u.conns[c].loop == w.conns[c].loop
  {
    assert ConnOk(w, NOTHING, c);
    hide LoopsOk, ConnFits;
    FitsLoop(w.loops, c in w.connections, NOTHING, c, w.conns[c]);
    var q := w.loops[w.conns[c].loop].queue + [ForceClose(c)];
    assert q[|q| - 1] == ForceClose(c);
    hide Inv;
  }

  lemma {:induction false} RunSameLoop(w: World, steps: seq<Step>, c: ConnId)
    requires Safe(w) && LegalRun(w, steps) && c in w.conns
    ensures c in Run(w, steps).conns && Run(w, steps).conns[c].loop == w.conns[c].loop
    decreases |steps|
  {
    hide Safe, Apply, Enabled;
    if steps != [] {
      RightLoop(w, steps[0], c);
      RunSameLoop(Next(w, steps[0]), steps[1..], c);
    }
  }
}
