/**
  Connection lifecycle across event loops: TcpServer.cc, the state machine of TcpConnection.cc, the
  dispatch of Channel.cc and the functor queues of EventLoop.cc. Loop 0 accepts; every connection lives
  on one loop (which may be loop 0). Each loop is a functor queue and a program counter; any loop may
  take the next step, and users may call shutdown and forceClose from any thread at any time.
 */
module TcpServer {
  import opened ConnectionState

  type ConnId = nat
  type LoopId = nat

  const BASE: LoopId := 0

  /** `other` stands for shutdownInLoop and sendInLoop, which do not touch the lifecycle. */
  datatype Task =
    | Establish(c: ConnId)
    | Remove(c: ConnId)
    | Destroy(c: ConnId)
    | ForceClose(c: ConnId)
    | Other(c: ConnId)

  /** Handling: channels returned by poll and not yet dispatched. Functors: how many of the swapped batch are left. */
  datatype Phase = Polling | Handling(active: seq<ConnId>) | Functors(left: nat)

  datatype Loop = Loop(queue: seq<Task>, phase: Phase)

  datatype Conn = Conn(
    loop: LoopId, state: ConnState,
    polled: bool,       // some event is enabled on its channel
    registered: bool,   // its channel is known to the poller
    // history only: connection callbacks up and down, handleClose calls, map erasures, connectDestroyed calls
    up: nat, down: nat, closes: nat, erased: nat, destroyed: nat)

  /** failed: some assertion of the code has failed. */
  datatype World = World(conns: map<ConnId, Conn>, connections: set<ConnId>, loops: seq<Loop>,
                         nextConnId: nat, failed: bool)

  // ---------- what the functions do ----------

  function Post(w: World, l: LoopId, t: Task): World
    requires l < |w.loops|
  {
    w.(loops := w.loops[l := w.loops[l].(queue := w.loops[l].queue + [t])])
  }

  function Established(conn: Conn): Conn {
    conn.(state := Connected, polled := true, registered := true, up := conn.up + 1)
  }

  /** connectEstablished */
  function EstablishNow(w: World, c: ConnId): World
    requires c in w.conns
  {
    var conn := w.conns[c];
    if conn.state != Connecting then w.(failed := true)
    else w.(conns := w.conns[c := Established(conn)])
  }

  /** removeConnectionInLoop */
  function RemoveNow(w: World, c: ConnId): (v: World)
    requires c in w.conns && w.conns[c].loop < |w.loops|
    ensures c in v.conns && v.conns[c].loop < |v.loops|
  {
    if c !in w.connections then w.(failed := true)
    else
      var conn := w.conns[c];
      Post(w.(connections := w.connections - {c}, conns := w.conns[c := conn.(erased := conn.erased + 1)]),
           conn.loop, Destroy(c))
  }

  function Closed(conn: Conn): Conn {
    conn.(state := Disconnected, polled := false, down := conn.down + 1, closes := conn.closes + 1)
  }

  /** handleClose, up to the close callback */
  function Disconnect(w: World, c: ConnId): World
    requires c in w.conns
  {
    w.(conns := w.conns[c := Closed(w.conns[c])])
  }

  /** handleClose: the close callback runs removeConnectionInLoop at once on loop 0, else posts it there. */
  function CloseNow(w: World, c: ConnId): (v: World)
    requires c in w.conns && w.conns[c].loop < |w.loops|
    ensures c in v.conns && v.conns[c].loop < |v.loops|
  {
    var conn := w.conns[c];
    if conn.state != Connected && conn.state != Disconnecting then w.(failed := true)
    else if conn.loop == BASE then RemoveNow(Disconnect(w, c), c)
    else Post(Disconnect(w, c), BASE, Remove(c))
  }

  /** forceCloseInLoop */
  function ForceCloseNow(w: World, c: ConnId): World
    requires c in w.conns && w.conns[c].loop < |w.loops|
  {
    if w.conns[c].state == Connected || w.conns[c].state == Disconnecting then CloseNow(w, c) else w
  }

  /** connectDestroyed, with the assertions of Channel::remove and of the poller */
  function DestroyNow(w: World, c: ConnId): World
    requires c in w.conns
  {
    var conn := w.conns[c];
    var conn1 := if conn.state == Connected
                 then conn.(state := Disconnected, polled := false, down := conn.down + 1) else conn;
    if conn1.polled || !conn1.registered then w.(failed := true)
    else w.(conns := w.conns[c := conn1.(registered := false, destroyed := conn1.destroyed + 1)])
  }

  function Perform(w: World, t: Task): World
    requires t.c in w.conns && w.conns[t.c].loop < |w.loops|
  {
    match t
    case Establish(c) => EstablishNow(w, c)
    case Remove(c) => RemoveNow(w, c)
    case Destroy(c) => DestroyNow(w, c)
    case ForceClose(c) => ForceCloseNow(w, c)
    case Other(_) => w
  }

  /** newConnection, up to the posting of connectEstablished; the connection's name is its number. */
  function Accepted(w: World, l: LoopId): World {
    var c := w.nextConnId;
    w.(conns := w.conns[c := Conn(l, Connecting, false, false, 0, 0, 0, 0, 0)],
       connections := w.connections + {c}, nextConnId := c + 1)
  }

  /** newConnection */
  function AcceptNow(w: World, l: LoopId): World
    requires l < |w.loops|
  {
    var c := w.nextConnId;
    var v := Accepted(w, l);
    if l == BASE then EstablishNow(v, c) else Post(v, l, Establish(c))
  }

  /** The event bits that matter, and whether a read would return 0. */
  datatype Event = Event(hup: bool, in_: bool, priOrRdhup: bool, out: bool, endOfFile: bool)

  /** Both the close callback and the read callback would run handleClose. */
  predicate ClosesTwice(e: Event) { e.hup && !e.in_ && e.priOrRdhup && e.endOfFile }

  /** handleEventWithGuard; writable and error events do not touch the lifecycle. */
  function Dispatch(w: World, c: ConnId, e: Event): World
    requires c in w.conns && w.conns[c].loop < |w.loops|
  {
    var v := if e.hup && !e.in_ then CloseNow(w, c) else w;
    if (e.in_ || e.priOrRdhup) && e.endOfFile then CloseNow(v, c) else v
  }

  // ---------- steps ----------

  datatype Step =
    | Accept(l: LoopId)
    | Poll(l: LoopId, active: seq<ConnId>)
    | HandleEvent(l: LoopId, e: Event)
    | StartFunctors(l: LoopId)
    | RunFunctor(l: LoopId)
    | EndFunctors(l: LoopId)
    | UserShutdown(c: ConnId, fromOwnLoop: bool)
    | UserForceClose(c: ConnId)

  predicate Distinct(s: seq<ConnId>) { forall i, j :: 0 <= i < j < |s| ==> s[i] != s[j] }

  predicate Enabled(w: World, step: Step) {
    match step
    case Accept(l) => l < |w.loops| && w.loops[BASE].phase.Handling?
    case Poll(l, active) =>
      && l < |w.loops| && w.loops[l].phase == Polling && Distinct(active)
      && forall i :: 0 <= i < |active| ==>
           active[i] in w.conns && w.conns[active[i]].loop == l && w.conns[active[i]].polled
    case HandleEvent(l, e) =>
      && l < |w.loops| && w.loops[l].phase.Handling? && w.loops[l].phase.active != []
      && !ClosesTwice(e)
    case StartFunctors(l) => l < |w.loops| && w.loops[l].phase == Handling([])
    case RunFunctor(l) => l < |w.loops| && w.loops[l].phase.Functors? && w.loops[l].phase.left > 0
    case EndFunctors(l) => l < |w.loops| && w.loops[l].phase == Functors(0)
    case UserShutdown(c, _) => c in w.conns
    case UserForceClose(c) => c in w.conns
  }

  function SetPhase(w: World, l: LoopId, phase: Phase): World
    requires l < |w.loops|
  {
    w.(loops := w.loops[l := w.loops[l].(phase := phase)])
  }

  function SetState(w: World, c: ConnId, state: ConnState): World
    requires c in w.conns
  {
    w.(conns := w.conns[c := w.conns[c].(state := state)])
  }

  /** shutdown */
  function ShutdownAsked(w: World, c: ConnId, fromOwnLoop: bool): World
    requires c in w.conns && w.conns[c].loop < |w.loops|
  {
    if w.conns[c].state != Connected then w
    else
      var v := SetState(w, c, Disconnecting);
      if fromOwnLoop then v else Post(v, w.conns[c].loop, Other(c))
  }

  /** forceClose */
  function ForceCloseAsked(w: World, c: ConnId): World
    requires c in w.conns && w.conns[c].loop < |w.loops|
  {
    if w.conns[c].state != Connected && w.conns[c].state != Disconnecting then w
    else Post(SetState(w, c, Disconnecting), w.conns[c].loop, ForceClose(c))
  }

  function Popped(w: World, l: LoopId): World
    requires l < |w.loops| && w.loops[l].queue != [] && w.loops[l].phase.Functors? && w.loops[l].phase.left > 0
  {
    w.(loops := w.loops[l := Loop(w.loops[l].queue[1..], Functors(w.loops[l].phase.left - 1))])
  }

  // ---------- invariant ----------

  /** The loop a task belongs to. */
  function HomeOf(conns: map<ConnId, Conn>, t: Task): LoopId
    requires t.c in conns
  {
    if t.Remove? then BASE else conns[t.c].loop
  }

  /** Every queued task is about a known connection and on the right loop. */
  predicate QueueOk(conns: map<ConnId, Conn>, l: LoopId, queue: seq<Task>) {
    forall t :: t in queue ==> t.c in conns && HomeOf(conns, t) == l
  }

  /** Channels waiting for dispatch are still enabled; a batch is at most the queue. */
  predicate PhaseOk(conns: map<ConnId, Conn>, l: LoopId, loop: Loop) {
    match loop.phase
    case Polling => true
    case Handling(active) =>
      && Distinct(active)
      && forall c :: c in active ==> c in conns && conns[c].loop == l && conns[c].polled
    case Functors(left) => left <= |loop.queue|
  }

  predicate LoopsOk(conns: map<ConnId, Conn>, loops: seq<Loop>) {
    forall l :: 0 <= l < |loops| ==> QueueOk(conns, l, loops[l].queue) && PhaseOk(conns, l, loops[l])
  }

  /** How often a task is in the queue of a loop. */
  function Times(loops: seq<Loop>, l: LoopId, t: Task): nat {
    if l < |loops| then multiset(loops[l].queue)[t] else 0
  }

  /** The stages a connection goes through, tied to the history counters. */
  predicate StageOk(conn: Conn, inMap: bool) {
    && (conn.polled <==> conn.state == Connected || conn.state == Disconnecting)
    && (conn.registered <==> conn.state != Connecting && conn.destroyed == 0)
    && conn.up == (if conn.state == Connecting then 0 else 1)
    && conn.closes == (if conn.state == Disconnected then 1 else 0)
    && conn.down == conn.closes
    && conn.destroyed <= conn.erased <= conn.closes
    && (inMap <==> conn.erased == 0)
  }

  /** The handshake as tokens: each of the three hops is in exactly one queue (or in hand) when it is due. */
  predicate TokensOk(conn: Conn, establishes: nat, removes: nat, destroys: nat) {
    && establishes == (if conn.state == Connecting then 1 else 0)
    && removes == conn.closes - conn.erased
    && destroys == conn.erased - conn.destroyed
  }

  predicate ConnFits(loops: seq<Loop>, inMap: bool, inHand: multiset<Task>, c: ConnId, conn: Conn) {
    && conn.loop < |loops|
    && StageOk(conn, inMap)
    && TokensOk(conn, Times(loops, conn.loop, Establish(c)) + inHand[Establish(c)],
                Times(loops, BASE, Remove(c)) + inHand[Remove(c)],
                Times(loops, conn.loop, Destroy(c)) + inHand[Destroy(c)])
  }

  predicate ConnOk(w: World, inHand: multiset<Task>, c: ConnId)
    requires c in w.conns
  {
    ConnFits(w.loops, c in w.connections, inHand, c, w.conns[c])
  }

  predicate Inv(w: World, inHand: multiset<Task>) {
    && |w.loops| > 0 && !w.failed && w.connections <= w.conns.Keys
    && (forall c :: c in w.conns ==> c < w.nextConnId)
    && LoopsOk(w.conns, w.loops)
    && forall c :: c in w.conns ==> ConnOk(w, inHand, c)
  }

  const NOTHING: multiset<Task> := multiset{}

  // ---------- queues ----------

  lemma TimesPosted(w: World, l: LoopId, t: Task, l': LoopId, t': Task)
    requires l < |w.loops|
    ensures Times(Post(w, l, t).loops, l', t') == Times(w.loops, l', t') + if l == l' && t == t' then 1 else 0
  {}

  lemma TimesPopped(w: World, l: LoopId, l': LoopId, t': Task)
    requires l < |w.loops| && w.loops[l].queue != [] && w.loops[l].phase.Functors? && w.loops[l].phase.left > 0
    ensures Times(w.loops, l', t')
         == Times(Popped(w, l).loops, l', t') + if l == l' && w.loops[l].queue[0] == t' then 1 else 0
  {
    var q := w.loops[l].queue;
    assert q == [q[0]] + q[1..];
  }

  lemma PostLoops(w: World, l: LoopId, t: Task)
    requires LoopsOk(w.conns, w.loops) && l < |w.loops| && t.c in w.conns && HomeOf(w.conns, t) == l
    ensures LoopsOk(w.conns, Post(w, l, t).loops)
  {
    var v := Post(w, l, t);
    forall k | 0 <= k < |v.loops| ensures QueueOk(w.conns, k, v.loops[k].queue) && PhaseOk(w.conns, k, v.loops[k]) {
      assert QueueOk(w.conns, k, w.loops[k].queue) && PhaseOk(w.conns, k, w.loops[k]);
    }
  }

  lemma PopLoops(w: World, l: LoopId)
    requires LoopsOk(w.conns, w.loops) && l < |w.loops| && w.loops[l].phase.Functors? && w.loops[l].phase.left > 0
    ensures w.loops[l].queue != [] && LoopsOk(w.conns, Popped(w, l).loops)
    ensures w.loops[l].queue[0].c in w.conns && HomeOf(w.conns, w.loops[l].queue[0]) == l
  {
    assert QueueOk(w.conns, l, w.loops[l].queue) && PhaseOk(w.conns, l, w.loops[l]);
    var q := w.loops[l].queue;
    assert q[0] in q;
    assert forall t :: t in q[1..] ==> t in q;
    var v := Popped(w, l);
    forall k | 0 <= k < |v.loops| ensures QueueOk(w.conns, k, v.loops[k].queue) && PhaseOk(w.conns, k, v.loops[k]) {
      assert QueueOk(w.conns, k, w.loops[k].queue) && PhaseOk(w.conns, k, w.loops[k]);
    }
  }

  /** Posting puts the task in hand into its queue. */
  lemma PostKeeps(w: World, t: Task)
    requires Inv(w, multiset{t}) && t.c in w.conns
    ensures HomeOf(w.conns, t) < |w.loops| && Inv(Post(w, HomeOf(w.conns, t), t), NOTHING)
  {
    hide LoopsOk, ConnFits;
    assert ConnOk(w, multiset{t}, t.c);
    FitsLoop(w.loops, t.c in w.connections, multiset{t}, t.c, w.conns[t.c]);
    var l := HomeOf(w.conns, t);
    var v := Post(w, l, t);
    assert LoopsOk(v.conns, v.loops) by { PostLoops(w, l, t); }
    forall c | c in v.conns ensures ConnOk(v, NOTHING, c) {
      assert ConnOk(w, multiset{t}, c);
      PostFits(w, l, t, c in w.connections, c, w.conns[c]);
    }
  }

  lemma PostFits(w: World, l: LoopId, t: Task, inMap: bool, c: ConnId, conn: Conn)
    requires l < |w.loops| && (t.c == c ==> l == if t.Remove? then BASE else conn.loop)
    requires ConnFits(w.loops, inMap, multiset{t}, c, conn)
    ensures ConnFits(Post(w, l, t).loops, inMap, NOTHING, c, conn)
  {
    TimesPosted(w, l, t, conn.loop, Establish(c));
    TimesPosted(w, l, t, BASE, Remove(c));
    TimesPosted(w, l, t, conn.loop, Destroy(c));
    hide Times, StageOk, TokensOk;
  }

  /** Popping takes the first task of a queue into the hand. */
  lemma PopKeeps(w: World, l: LoopId)
    requires Inv(w, NOTHING) && l < |w.loops| && w.loops[l].phase.Functors? && w.loops[l].phase.left > 0
    ensures w.loops[l].queue != [] && Inv(Popped(w, l), multiset{w.loops[l].queue[0]})
    ensures var t := w.loops[l].queue[0]; t.c in w.conns && HomeOf(w.conns, t) == l
  {
    PopLoops(w, l);
    var t := w.loops[l].queue[0];
    var v := Popped(w, l);
    hide LoopsOk, ConnFits;
    forall c | c in v.conns ensures ConnOk(v, multiset{t}, c) {
      assert ConnOk(w, NOTHING, c);
      PopFits(w, l, c in w.connections, c, w.conns[c]);
    }
  }

  lemma PopFits(w: World, l: LoopId, inMap: bool, c: ConnId, conn: Conn)
    requires l < |w.loops| && w.loops[l].queue != [] && w.loops[l].phase.Functors? && w.loops[l].phase.left > 0
    requires var t := w.loops[l].queue[0]; t.c == c ==> l == if t.Remove? then BASE else conn.loop
    requires ConnFits(w.loops, inMap, NOTHING, c, conn)
    ensures ConnFits(Popped(w, l).loops, inMap, multiset{w.loops[l].queue[0]}, c, conn)
  {
    TimesPopped(w, l, conn.loop, Establish(c));
    TimesPopped(w, l, BASE, Remove(c));
    TimesPopped(w, l, conn.loop, Destroy(c));
    hide Times, StageOk, TokensOk;
  }

  // ---------- one connection changes ----------

  lemma ChangeLoops(w: World, c: ConnId, conn: Conn)
    requires LoopsOk(w.conns, w.loops) && c in w.conns && conn.loop == w.conns[c].loop
    requires conn.polled || NotActive(w, c)
    ensures LoopsOk(w.conns[c := conn], w.loops)
  {
    var conns := w.conns[c := conn];
    forall l | 0 <= l < |w.loops| ensures QueueOk(conns, l, w.loops[l].queue) && PhaseOk(conns, l, w.loops[l]) {
      assert QueueOk(w.conns, l, w.loops[l].queue) && PhaseOk(w.conns, l, w.loops[l]);
    }
  }

  /** The world with one connection changed. */
  function Changed(w: World, c: ConnId, conn: Conn, connections: set<ConnId>): World {
    w.(conns := w.conns[c := conn], connections := connections)
  }

  lemma OtherHand(loops: seq<Loop>, inMap: bool, before: multiset<Task>, after: multiset<Task>, c: ConnId, conn: Conn)
    requires ConnFits(loops, inMap, before, c, conn)
    requires forall t: Task :: t.c == c && !t.ForceClose? && !t.Other? ==> before[t] == after[t]
    ensures ConnFits(loops, inMap, after, c, conn)
  {
    hide Times, StageOk, TokensOk;
  }

  /**
    Changing one connection, and what is in hand, keeps the invariant if that connection stays in order,
    stays on its loop, and (unless it stays enabled) waits for no dispatch.
   */
  lemma ChangeKeeps(w: World, before: multiset<Task>, after: multiset<Task>,
                    c: ConnId, conn: Conn, connections: set<ConnId>)
    requires Inv(w, before) && c in w.conns && conn.loop == w.conns[c].loop && (conn.polled || NotActive(w, c))
    requires connections == w.connections || connections == w.connections - {c}
    requires forall t: Task :: t.c != c ==> before[t] == after[t]
    requires ConnOk(Changed(w, c, conn, connections), after, c)
    ensures Inv(Changed(w, c, conn, connections), after)
  {
    hide Times, StageOk, TokensOk, LoopsOk, NotActive, ConnFits;
    var v := Changed(w, c, conn, connections);
    assert LoopsOk(v.conns, v.loops) by { ChangeLoops(w, c, conn); }
    forall d | d in v.conns ensures ConnOk(v, after, d) {
      if d != c {
        assert ConnOk(w, before, d);
        OtherHand(w.loops, d in w.connections, before, after, d, w.conns[d]);
      }
    }
  }

  predicate NotActive(w: World, c: ConnId) {
    forall l :: 0 <= l < |w.loops| && w.loops[l].phase.Handling? ==> c !in w.loops[l].phase.active
  }

  lemma EstablishKeeps(w: World, c: ConnId)
    requires c in w.conns && Inv(w, multiset{Establish(c)})
    ensures Inv(EstablishNow(w, c), NOTHING)
  {
    hide Times, LoopsOk, ConnFits, NotActive;
    assert ConnOk(w, multiset{Establish(c)}, c);
    EstablishedFits(w.loops, c in w.connections, c, w.conns[c]);
    ChangeKeeps(w, multiset{Establish(c)}, NOTHING, c, Established(w.conns[c]), w.connections);
  }

  lemma EstablishedFits(loops: seq<Loop>, inMap: bool, c: ConnId, conn: Conn)
    requires ConnFits(loops, inMap, multiset{Establish(c)}, c, conn)
    ensures conn.state == Connecting && ConnFits(loops, inMap, NOTHING, c, Established(conn))
  {
    hide Times;
  }

  lemma ErasedOk(loops: seq<Loop>, inMap: bool, c: ConnId, conn: Conn)
    requires ConnFits(loops, inMap, multiset{Remove(c)}, c, conn)
    ensures inMap && !conn.polled
    ensures ConnFits(loops, false, multiset{Destroy(c)}, c, conn.(erased := conn.erased + 1))
  {
    hide Times;
  }

  /** The erase finds the connection, and the last hop is posted to its own loop. */
  lemma RemoveKeeps(w: World, c: ConnId)
    requires c in w.conns && Inv(w, multiset{Remove(c)}) && w.conns[c].loop < |w.loops|
    ensures Inv(RemoveNow(w, c), NOTHING)
  {
    hide ConnFits, Times, LoopsOk, NotActive, StageOk, TokensOk;
    var conn := w.conns[c].(erased := w.conns[c].erased + 1);
    var v := Changed(w, c, conn, w.connections - {c});
    assert ConnOk(w, multiset{Remove(c)}, c);
    ErasedOk(w.loops, c in w.connections, c, w.conns[c]);
    assert Inv(v, multiset{Destroy(c)}) by {
      NotPolledNotActive(w, c);
      ChangeKeeps(w, multiset{Remove(c)}, multiset{Destroy(c)}, c, conn, w.connections - {c});
    }
    hide Inv;
    PostKeeps(v, Destroy(c));
  }

  lemma NotPolledNotActive(w: World, c: ConnId)
    requires LoopsOk(w.conns, w.loops) && c in w.conns && !w.conns[c].polled
    ensures NotActive(w, c)
  {
    forall l | 0 <= l < |w.loops| && w.loops[l].phase.Handling? ensures c !in w.loops[l].phase.active {
      assert PhaseOk(w.conns, l, w.loops[l]);
    }
  }

  /** handleClose: its assertion holds, and the connection's removal is under way. */
  lemma CloseKeeps(w: World, c: ConnId)
    requires c in w.conns && Inv(w, NOTHING) && w.conns[c].polled && NotActive(w, c) && w.conns[c].loop < |w.loops|
    ensures Inv(CloseNow(w, c), NOTHING)
  {
    hide Times, LoopsOk, ConnFits, NotActive;
    assert ConnOk(w, NOTHING, c);
    ClosedFits(w.loops, c in w.connections, c, w.conns[c]);
    var v := Disconnect(w, c);
    assert Inv(v, multiset{Remove(c)}) by {
      ChangeKeeps(w, NOTHING, multiset{Remove(c)}, c, Closed(w.conns[c]), w.connections);
    }
    hide Inv;
    if w.conns[c].loop == BASE {
      RemoveKeeps(v, c);
    } else {
      PostKeeps(v, Remove(c));
    }
  }

  lemma ClosedFits(loops: seq<Loop>, inMap: bool, c: ConnId, conn: Conn)
    requires ConnFits(loops, inMap, NOTHING, c, conn) && conn.polled
    ensures conn.state == Connected || conn.state == Disconnecting
    ensures ConnFits(loops, inMap, multiset{Remove(c)}, c, Closed(conn))
  {
    hide Times;
  }

  lemma DestroyKeeps(w: World, c: ConnId)
    requires c in w.conns && Inv(w, multiset{Destroy(c)})
    ensures Inv(DestroyNow(w, c), NOTHING)
  {
    hide Times, LoopsOk, ConnFits, NotActive;
    assert ConnOk(w, multiset{Destroy(c)}, c);
    DestroyedFits(w.loops, c in w.connections, c, w.conns[c]);
    NotPolledNotActive(w, c);
    ChangeKeeps(w, multiset{Destroy(c)}, NOTHING, c, DestroyNow(w, c).conns[c], w.connections);
  }

  lemma DestroyedFits(loops: seq<Loop>, inMap: bool, c: ConnId, conn: Conn)
    requires ConnFits(loops, inMap, multiset{Destroy(c)}, c, conn)
    ensures conn.state == Disconnected && !conn.polled && conn.registered
    ensures ConnFits(loops, inMap, NOTHING, c, conn.(registered := false, destroyed := conn.destroyed + 1))
  {
    hide Times;
  }

  /** A task that is no hop of the handshake may be dropped from the hand. */
  lemma DropKeeps(w: World, t: Task)
    requires Inv(w, multiset{t}) && (t.ForceClose? || t.Other?)
    ensures Inv(w, NOTHING)
  {
    hide Times, LoopsOk, StageOk, TokensOk, ConnFits;
    forall c | c in w.conns ensures ConnOk(w, NOTHING, c) {
      assert ConnOk(w, multiset{t}, c);
      OtherHand(w.loops, c in w.connections, multiset{t}, NOTHING, c, w.conns[c]);
    }
  }

  lemma PerformKeeps(w: World, t: Task)
    requires t.c in w.conns && Inv(w, multiset{t}) && w.conns[t.c].loop < |w.loops|
    requires NotActive(w, t.c)
    ensures Inv(Perform(w, t), NOTHING)
  {
    match t
    case Establish(c) => EstablishKeeps(w, c);
    case Remove(c) => RemoveKeeps(w, c);
    case Destroy(c) => DestroyKeeps(w, c);
    case ForceClose(c) =>
      DropKeeps(w, t);
      if w.conns[c].state == Connected || w.conns[c].state == Disconnecting {
        assert ConnOk(w, NOTHING, c);
        CloseKeeps(w, c);
      }
    case Other(_) => DropKeeps(w, t);
  }

  // ---------- whole steps ----------

  predicate Safe(w: World) { Inv(w, NOTHING) }

  function Apply(w: World, step: Step): World
    requires Safe(w) && Enabled(w, step)
  {
    match step
    case Accept(l) => AcceptNow(w, l)
    case Poll(l, active) => SetPhase(w, l, Handling(active))
    case HandleEvent(l, e) =>
      ActiveIsPolled(w, l);
      var active := w.loops[l].phase.active;
      Dispatch(SetPhase(w, l, Handling(active[1..])), active[0], e)
    case StartFunctors(l) => SetPhase(w, l, Functors(|w.loops[l].queue|))
    case RunFunctor(l) =>
      HeadIsAtHome(w, l);
      Perform(Popped(w, l), w.loops[l].queue[0])
    case EndFunctors(l) => SetPhase(w, l, Polling)
    case UserShutdown(c, fromOwnLoop) =>
      assert ConnOk(w, NOTHING, c);
      ShutdownAsked(w, c, fromOwnLoop)
    case UserForceClose(c) =>
      assert ConnOk(w, NOTHING, c);
      ForceCloseAsked(w, c)
  }

  /** A channel that waits for dispatch is enabled, lives on that loop, and waits once. */
  lemma ActiveIsPolled(w: World, l: LoopId)
    requires Safe(w) && l < |w.loops| && w.loops[l].phase.Handling? && w.loops[l].phase.active != []
    ensures var active := w.loops[l].phase.active; var c := active[0];
            && c in w.conns && w.conns[c].loop == l && w.conns[c].polled
            && NotActive(SetPhase(w, l, Handling(active[1..])), c)
  {
    hide QueueOk, ConnFits;
    var active := w.loops[l].phase.active;
    assert PhaseOk(w.conns, l, w.loops[l]);
    assert active[0] in active;
    forall k | 0 <= k < |w.loops| && k != l && w.loops[k].phase.Handling?
      ensures active[0] !in w.loops[k].phase.active
    {
      assert PhaseOk(w.conns, k, w.loops[k]);
    }
  }

  /** The functor about to run is about a known connection, runs on the right loop, and waits for no dispatch. */
  lemma HeadIsAtHome(w: World, l: LoopId)
    requires Safe(w) && l < |w.loops| && w.loops[l].phase.Functors? && w.loops[l].phase.left > 0
    ensures w.loops[l].queue != [] && w.loops[l].queue[0].c in w.conns
    ensures var t := w.loops[l].queue[0];
            && HomeOf(w.conns, t) == l && w.conns[t.c].loop < |w.loops|
            && Inv(Popped(w, l), multiset{t}) && NotActive(Popped(w, l), t.c)
  {
    hide ConnFits, QueueOk;
    PopKeeps(w, l);
    var t := w.loops[l].queue[0];
    var v := Popped(w, l);
    assert ConnOk(v, multiset{t}, t.c);
    if t.Remove? {
      RemovedIsNotPolled(v.loops, t.c in v.connections, t.c, v.conns[t.c]);
      NotPolledNotActive(v, t.c);
    } else {
      forall k | 0 <= k < |v.loops| && v.loops[k].phase.Handling? ensures t.c !in v.loops[k].phase.active {
        assert PhaseOk(v.conns, k, v.loops[k]);
      }
    }
    FitsLoop(v.loops, t.c in v.connections, multiset{t}, t.c, v.conns[t.c]);
  }

  lemma FitsLoop(loops: seq<Loop>, inMap: bool, inHand: multiset<Task>, c: ConnId, conn: Conn)
    requires ConnFits(loops, inMap, inHand, c, conn)
    ensures conn.loop < |loops|
  {}

  lemma RemovedIsNotPolled(loops: seq<Loop>, inMap: bool, c: ConnId, conn: Conn)
    requires ConnFits(loops, inMap, multiset{Remove(c)}, c, conn)
    ensures !conn.polled
  {
    hide Times;
  }

  /** Moving a loop's program counter keeps the invariant as long as its new position is in order. */
  lemma PhaseKeeps(w: World, l: LoopId, phase: Phase)
    requires Safe(w) && l < |w.loops| && PhaseOk(w.conns, l, w.loops[l].(phase := phase))
    ensures Safe(SetPhase(w, l, phase))
  {
    var v := SetPhase(w, l, phase);
    assert LoopsOk(v.conns, v.loops) by {
      hide ConnFits;
      forall k | 0 <= k < |v.loops| ensures QueueOk(v.conns, k, v.loops[k].queue) && PhaseOk(v.conns, k, v.loops[k]) {
        assert QueueOk(w.conns, k, w.loops[k].queue) && PhaseOk(w.conns, k, w.loops[k]);
      }
    }
    hide LoopsOk, StageOk, TokensOk;
    forall c | c in v.conns ensures ConnOk(v, NOTHING, c) {
      assert ConnOk(w, NOTHING, c);
    }
  }

  lemma StateKeeps(w: World, c: ConnId)
    requires Safe(w) && c in w.conns && w.conns[c].polled
    ensures Safe(SetState(w, c, Disconnecting))
  {
    hide Times, LoopsOk, NotActive;
    assert ConnOk(w, NOTHING, c);
    var conn := w.conns[c].(state := Disconnecting);
    assert SetState(w, c, Disconnecting) == Changed(w, c, conn, w.connections);
    ChangeKeeps(w, NOTHING, NOTHING, c, conn, w.connections);
  }

  lemma OrdinaryPostKeeps(w: World, t: Task)
    requires Safe(w) && t.c in w.conns && (t.ForceClose? || t.Other?)
    ensures w.conns[t.c].loop < |w.loops| && Safe(Post(w, w.conns[t.c].loop, t))
  {
    hide Times, LoopsOk, ConnFits;
    forall c | c in w.conns ensures ConnOk(w, multiset{t}, c) {
      assert ConnOk(w, NOTHING, c);
      OtherHand(w.loops, c in w.connections, NOTHING, multiset{t}, c, w.conns[c]);
    }
    PostKeeps(w, t);
  }

  /** A task about a connection that does not exist yet is in no queue. */
  lemma UnknownNotQueued(w: World, l: LoopId, t: Task)
    requires LoopsOk(w.conns, w.loops) && t.c !in w.conns
    ensures Times(w.loops, l, t) == 0
  {
    if l < |w.loops| {
      assert QueueOk(w.conns, l, w.loops[l].queue);
    }
  }

  lemma AcceptedLoops(w: World, l: LoopId)
    requires Safe(w)
    ensures LoopsOk(Accepted(w, l).conns, w.loops)
  {
    hide ConnFits;
    var conns := Accepted(w, l).conns;
    forall k | 0 <= k < |w.loops| ensures QueueOk(conns, k, w.loops[k].queue) && PhaseOk(conns, k, w.loops[k]) {
      assert QueueOk(w.conns, k, w.loops[k].queue) && PhaseOk(w.conns, k, w.loops[k]);
    }
  }

  /** A new connection starts with its connectEstablished due. */
  lemma AcceptedKeeps(w: World, l: LoopId)
    requires Safe(w) && l < |w.loops|
    ensures Inv(Accepted(w, l), multiset{Establish(w.nextConnId)})
  {
    hide Times, LoopsOk;
    var n := w.nextConnId;
    var v := Accepted(w, l);
    AcceptedLoops(w, l);
    UnknownNotQueued(w, l, Establish(n));
    UnknownNotQueued(w, BASE, Remove(n));
    UnknownNotQueued(w, l, Destroy(n));
    assert ConnOk(v, multiset{Establish(n)}, n);
    hide StageOk, TokensOk, ConnFits;
    forall c | c in v.conns ensures ConnOk(v, multiset{Establish(n)}, c) {
      if c != n {
        assert ConnOk(w, NOTHING, c);
        OtherHand(w.loops, c in w.connections, NOTHING, multiset{Establish(n)}, c, w.conns[c]);
      }
    }
  }

  lemma AcceptKeeps(w: World, l: LoopId)
    requires Safe(w) && l < |w.loops|
    ensures Safe(AcceptNow(w, l))
  {
    AcceptedKeeps(w, l);
    hide Inv;
    if l == BASE {
      EstablishKeeps(Accepted(w, l), w.nextConnId);
    } else {
      PostKeeps(Accepted(w, l), Establish(w.nextConnId));
    }
  }

  lemma HandleEventKeeps(w: World, l: LoopId, e: Event)
    requires Safe(w) && Enabled(w, HandleEvent(l, e))
    ensures Safe(Apply(w, HandleEvent(l, e)))
  {
    ActiveIsPolled(w, l);
    var active := w.loops[l].phase.active;
    var v := SetPhase(w, l, Handling(active[1..]));
    assert PhaseOk(w.conns, l, w.loops[l].(phase := Handling(active[1..]))) by {
      hide ConnFits, QueueOk, NotActive;
      assert PhaseOk(w.conns, l, w.loops[l]);
      assert forall c :: c in active[1..] ==> c in active;
    }
    PhaseKeeps(w, l, Handling(active[1..]));
    hide Inv, NotActive;
    CloseKeeps(v, active[0]);
  }

  /** Every step keeps the invariant. */
  lemma StepKeeps(w: World, step: Step)
    requires Safe(w) && Enabled(w, step)
    ensures Safe(Apply(w, step))
  {
    hide LoopsOk, ConnFits, NotActive;
    match step
    case Accept(l) => AcceptKeeps(w, l);
    case Poll(l, active) => PhaseKeeps(w, l, Handling(active));
    case HandleEvent(l, e) => HandleEventKeeps(w, l, e);
    case StartFunctors(l) => PhaseKeeps(w, l, Functors(|w.loops[l].queue|));
    case RunFunctor(l) =>
      HeadIsAtHome(w, l);
      PerformKeeps(Popped(w, l), w.loops[l].queue[0]);
    case EndFunctors(l) => PhaseKeeps(w, l, Polling);
    case UserShutdown(c, fromOwnLoop) => UserKeeps(w, c, Other(c));
    case UserForceClose(c) => UserKeeps(w, c, ForceClose(c));
  }

  /** shutdown and forceClose, from any thread: a state change and at most a posted functor. */
  lemma UserKeeps(w: World, c: ConnId, t: Task)
    requires Safe(w) && c in w.conns && t.c == c && (t.ForceClose? || t.Other?)
    ensures w.conns[c].loop < |w.loops|
    ensures w.conns[c].state == Connected || w.conns[c].state == Disconnecting ==>
              var v := SetState(w, c, Disconnecting); Safe(v) && Safe(Post(v, w.conns[c].loop, t))
  {
    assert ConnOk(w, NOTHING, c);
    hide Times, LoopsOk, NotActive;
    if w.conns[c].state == Connected || w.conns[c].state == Disconnecting {
      StateKeeps(w, c);
      OrdinaryPostKeeps(SetState(w, c, Disconnecting), t);
    }
  }

  // ---------- runs ----------

  /** A server with its base loop and any number of further loops. */
  function Initial(extraLoops: nat): World {
    World(map[], {}, seq(extraLoops + 1, _ => Loop([], Polling)), 0, false)
  }

  lemma InitialSafe(extraLoops: nat)
    ensures Safe(Initial(extraLoops))
  {}

  function Next(w: World, step: Step): (v: World)
    requires Safe(w) && Enabled(w, step)
    ensures Safe(v)
  {
    hide *;
    StepKeeps(w, step);
    Apply(w, step)
  }

  predicate LegalRun(w: World, steps: seq<Step>)
    requires Safe(w)
    decreases |steps|
  {
    hide *;
    steps != [] ==> Enabled(w, steps[0]) && LegalRun(Next(w, steps[0]), steps[1..])
  }

  function Run(w: World, steps: seq<Step>): (v: World)
    requires Safe(w) && LegalRun(w, steps)
    ensures Safe(v)
    decreases |steps|
  {
    hide Safe, Next, Enabled;
    if steps == [] then w else Run(Next(w, steps[0]), steps[1..])
  }

  // ---------- the theorems ----------

  /** What a connection's history may be: up once, down at most once and after up, erased once, then destroyed once. */
  predicate HistoryOk(conn: Conn, inMap: bool) {
    && conn.up <= 1 && conn.closes <= 1
    && conn.down == conn.closes <= conn.up
    && conn.destroyed <= conn.erased <= conn.down
    && (inMap <==> conn.erased == 0)
    && (conn.destroyed == 1 ==> !conn.registered && !conn.polled)
  }

  lemma FitsHistory(loops: seq<Loop>, inMap: bool, inHand: multiset<Task>, c: ConnId, conn: Conn)
    requires ConnFits(loops, inMap, inHand, c, conn)
    ensures HistoryOk(conn, inMap)
  {
    hide Times;
  }

  /**
    In every world a run can reach no assertion has failed, every connection's history is in order, and
    every functor waits on the loop it belongs to.
   */
  lemma ReachableWorlds(extraLoops: nat, steps: seq<Step>)
    requires LegalRun(Initial(extraLoops), steps)
    ensures var w := Run(Initial(extraLoops), steps);
            && !w.failed
            && (forall c :: c in w.conns ==> HistoryOk(w.conns[c], c in w.connections))
            && (forall c :: c in w.connections ==> c in w.conns)
            && forall l, t :: 0 <= l < |w.loops| && t in w.loops[l].queue ==> t.c in w.conns && HomeOf(w.conns, t) == l
  {
    InitialSafe(extraLoops);
    hide Run, LegalRun, ConnFits, PhaseOk, HistoryOk;
    var w := Run(Initial(extraLoops), steps);
    forall c | c in w.conns ensures HistoryOk(w.conns[c], c in w.connections) {
      assert ConnOk(w, NOTHING, c);
      FitsHistory(w.loops, c in w.connections, NOTHING, c, w.conns[c]);
    }
    forall l | 0 <= l < |w.loops| ensures QueueOk(w.conns, l, w.loops[l].queue) {}
  }

  /** A connection that is up and in the map, or one that is completely gone. */
  predicate Settled(conn: Conn, inMap: bool) {
    || (conn.polled && conn.registered && inMap && conn.up == 1 && conn.down == 0)
    || (!conn.polled && !conn.registered && !inMap && conn.up == conn.down == conn.erased == conn.destroyed == 1)
  }

  lemma FitsSettled(loops: seq<Loop>, inMap: bool, c: ConnId, conn: Conn)
    requires ConnFits(loops, inMap, NOTHING, c, conn) && 0 < |loops|
    requires forall l :: 0 <= l < |loops| ==> loops[l].queue == []
    ensures Settled(conn, inMap)
  {
    assert forall l: nat, t: Task :: Times(loops, l, t) == 0;
    hide Times;
  }

  /** No connection is left half way: once all queues are empty each one is up, or has been erased and destroyed. */
  lemma DrainedWorld(w: World, c: ConnId)
    requires Safe(w) && c in w.conns
    requires forall l :: 0 <= l < |w.loops| ==> w.loops[l].queue == []
    ensures Settled(w.conns[c], c in w.connections)
  {
    hide LoopsOk, Settled, ConnFits;
    assert ConnOk(w, NOTHING, c);
    FitsSettled(w.loops, c in w.connections, c, w.conns[c]);
  }

  /**
    Who does what: a step destroys a connection only as that functor of its own loop, once the map no
    longer holds it, and erases one only on the base loop.
   */
  lemma RightLoop(w: World, step: Step, c: ConnId)
    requires Safe(w) && Enabled(w, step) && c in w.conns
    ensures c in Apply(w, step).conns && Apply(w, step).conns[c].loop == w.conns[c].loop
    ensures Apply(w, step).conns[c].destroyed != w.conns[c].destroyed ==>
              && step == RunFunctor(w.conns[c].loop) && w.loops[step.l].queue[0] == Destroy(c)
              && c !in w.connections
    ensures Apply(w, step).conns[c].erased != w.conns[c].erased ==>
              (step.RunFunctor? || step.HandleEvent?) && step.l == BASE
  {
    hide LoopsOk, ConnFits, NotActive;
    assert c < w.nextConnId;
    match step {
      case RunFunctor(l) =>
        HeadIsAtHome(w, l);
        PerformCounts(Popped(w, l), w.loops[l].queue[0], c);
        if w.loops[l].queue[0] == Destroy(c) {
          assert ConnOk(Popped(w, l), multiset{Destroy(c)}, c);
          DestroyedIsErased(Popped(w, l).loops, c in w.connections, c, w.conns[c]);
        }
      case HandleEvent(l, e) => ActiveIsPolled(w, l);
      case Accept(l) =>
      case UserShutdown(d, _) => assert ConnOk(w, NOTHING, d);
      case UserForceClose(d) => assert ConnOk(w, NOTHING, d);
      case _ =>
    }
  }

  /** A functor destroys only what it names, and erases only in removeConnectionInLoop or a close on the base loop. */
  lemma PerformCounts(w: World, t: Task, c: ConnId)
    requires t.c in w.conns && w.conns[t.c].loop < |w.loops| && c in w.conns
    ensures c in Perform(w, t).conns
    ensures var before, after := w.conns[c], Perform(w, t).conns[c];
            && after.loop == before.loop
            && (after.destroyed != before.destroyed ==> t == Destroy(c))
            && (after.erased != before.erased ==> t == Remove(c) || (t == ForceClose(c) && before.loop == BASE))
  {}

  /** A functor moves its own loop's program counter by one, and what it posts goes behind what is queued. */
  lemma RunFunctorPhase(w: World, l: LoopId)
    requires Safe(w) && Enabled(w, RunFunctor(l))
    ensures var v := Apply(w, RunFunctor(l));
            && l < |v.loops| && v.loops[l].phase == Functors(w.loops[l].phase.left - 1)
            && w.loops[l].queue != [] && w.loops[l].queue[1..] <= v.loops[l].queue
  {
    hide Inv, NotActive;
    HeadIsAtHome(w, l);
    PerformPosts(Popped(w, l), w.loops[l].queue[0], l);
  }

  lemma PerformPosts(w: World, t: Task, l: LoopId)
    requires t.c in w.conns && w.conns[t.c].loop < |w.loops| && l < |w.loops|
    ensures var v := Perform(w, t);
            |v.loops| == |w.loops| && v.loops[l].phase == w.loops[l].phase && w.loops[l].queue <= v.loops[l].queue
  {}

  lemma BatchIsQueued(w: World, l: LoopId)
    requires Safe(w) && l < |w.loops| && w.loops[l].phase.Functors?
    ensures w.loops[l].phase.left <= |w.loops[l].queue|
  {
    hide ConnFits, QueueOk;
    assert PhaseOk(w.conns, l, w.loops[l]);
  }

  /** The world after k functors of the batch of loop l: the rest of the queue, and behind it what was posted since. */
  function Ran(w: World, l: LoopId, k: nat): (v: World)
    requires Safe(w) && l < |w.loops| && w.loops[l].phase.Functors? && k <= w.loops[l].phase.left
    ensures Safe(v) && l < |v.loops| && v.loops[l].phase == Functors(w.loops[l].phase.left - k)
    ensures k <= |w.loops[l].queue| && w.loops[l].queue[k..] <= v.loops[l].queue
  {
    hide Safe, Apply;
    BatchIsQueued(w, l);
    if k == 0 then w
    else
      var u := Ran(w, l, k - 1);
      RunFunctorPhase(u, l);
      var v := Next(u, RunFunctor(l));
      TailStays(w.loops[l].queue, u.loops[l].queue, v.loops[l].queue, k);
      v
  }

  lemma TailStays(a: seq<Task>, b: seq<Task>, c: seq<Task>, k: nat)
    requires 0 < k <= |a| && a[k - 1..] <= b && b != [] && b[1..] <= c
    ensures a[k..] <= c
  {
    assert a[k..] == a[k - 1..][1..];
    assert a[k - 1..][1..] <= b[1..];
  }

  lemma RanNone(w: World, l: LoopId)
    requires Safe(w) && l < |w.loops| && w.loops[l].phase.Functors?
    ensures Ran(w, l, 0) == w
  {}

  lemma RanOneMore(w: World, l: LoopId, k: nat)
    requires Safe(w) && l < |w.loops| && w.loops[l].phase.Functors? && 0 < k <= w.loops[l].phase.left
    ensures Enabled(Ran(w, l, k - 1), RunFunctor(l)) && Ran(w, l, k) == Apply(Ran(w, l, k - 1), RunFunctor(l))
  {
    hide Safe, Apply;
  }

  /** Each functor of a batch runs in its turn: the k-th one run is the k-th one queued when the batch began. */
  lemma BatchInOrder(w: World, l: LoopId, k: nat)
    requires Safe(w) && l < |w.loops| && w.loops[l].phase.Functors? && k < w.loops[l].phase.left
    ensures k < |w.loops[l].queue| && Enabled(Ran(w, l, k), RunFunctor(l))
    ensures Ran(w, l, k).loops[l].queue != [] && Ran(w, l, k).loops[l].queue[0] == w.loops[l].queue[k]
  {
    hide Safe, Ran;
    BatchIsQueued(w, l);
    assert w.loops[l].queue[k..][0] == w.loops[l].queue[k];
  }

  lemma DestroyedIsErased(loops: seq<Loop>, inMap: bool, c: ConnId, conn: Conn)
    requires ConnFits(loops, inMap, multiset{Destroy(c)}, c, conn)
    ensures !inMap
  {
    hide Times;
  }

  /**
    Without the assumption on HUP events the code's assertion does fail, exactly when an event carries HUP
    and PRI or RDHUP but not IN and the read finds the end of the stream: then handleClose runs twice.
   */
  lemma DoubleCloseExactly(w: World, c: ConnId, e: Event)
    requires Safe(w) && c in w.conns && w.conns[c].polled && NotActive(w, c) && w.conns[c].loop < |w.loops|
    ensures Dispatch(w, c, e).failed <==> ClosesTwice(e)
  {
    hide LoopsOk, NotActive;
    CloseKeeps(w, c);
    assert ConnOk(w, NOTHING, c);
    assert CloseNow(w, c).conns[c].state == Disconnected by {
      hide Inv, ConnFits, StageOk;
    }
  }

  // ---------- the code ----------

  /** The fields of TcpServer, with those of its connections and loops that the lifecycle reads and writes. */
  class Server {
    var connections: set<ConnId>
    var nextConnId: nat
    var conns: map<ConnId, Conn>
    var loops: seq<Loop>
    var failed: bool   // some assertion has failed

    ghost function View(): World
      reads this
    {
      World(conns, connections, loops, nextConnId, failed)
    }

    constructor (extraLoops: nat)
      ensures View() == Initial(extraLoops)
    {
      connections, nextConnId, conns, failed := {}, 0, map[], false;
      loops := seq(extraLoops + 1, _ => Loop([], Polling));
    }

    method QueueInLoop(l: LoopId, t: Task)
      requires l < |loops|
      modifies this`loops
      ensures View() == Post(old(View()), l, t)
    {
      loops := loops[l := loops[l].(queue := loops[l].queue + [t])];
    }

    /** The accepted connection goes to loop l. */
    method NewConnection(l: LoopId)
      requires Safe(View()) && Enabled(View(), Accept(l))
      modifies this
      ensures View() == Apply(old(View()), Accept(l)) && Safe(View())
    {
      hide Safe;
      StepKeeps(View(), Accept(l));
      var c := nextConnId;
      nextConnId := nextConnId + 1;
      conns := conns[c := Conn(l, Connecting, false, false, 0, 0, 0, 0, 0)];
      connections := connections + {c};
      if l == BASE {
        ConnectEstablished(c);
      } else {
        QueueInLoop(l, Establish(c));
      }
    }

    method ConnectEstablished(c: ConnId)
      requires c in conns
      modifies this`conns, this`failed
      ensures View() == EstablishNow(old(View()), c)
    {
      var conn := conns[c];
      if conn.state != Connecting {
        failed := true;
        return;
      }
      conns := conns[c := conn.(state := Connected, polled := true, registered := true, up := conn.up + 1)];
    }

    method RemoveConnection(c: ConnId)
      requires c in conns && conns[c].loop < |loops|
      modifies this
      ensures View() == if old(conns[c].loop) == BASE then RemoveNow(old(View()), c)
                        else Post(old(View()), BASE, Remove(c))
    {
      if conns[c].loop == BASE {
        RemoveConnectionInLoop(c);
      } else {
        QueueInLoop(BASE, Remove(c));
      }
    }

    method RemoveConnectionInLoop(c: ConnId)
      requires c in conns && conns[c].loop < |loops|
      modifies this
      ensures View() == RemoveNow(old(View()), c)
    {
      var n := if c in connections then 1 else 0;
      if n != 1 {
        failed := true;
        return;
      }
      connections := connections - {c};
      conns := conns[c := conns[c].(erased := conns[c].erased + 1)];
      QueueInLoop(conns[c].loop, Destroy(c));
    }

    method HandleClose(c: ConnId)
      requires c in conns && conns[c].loop < |loops|
      modifies this
      ensures View() == CloseNow(old(View()), c)
    {
      var conn := conns[c];
      if conn.state != Connected && conn.state != Disconnecting {
        failed := true;
        return;
      }
      conns := conns[c := conn.(state := Disconnected, polled := false,
                                down := conn.down + 1, closes := conn.closes + 1)];
      RemoveConnection(c);
    }

    method ForceCloseInLoop(c: ConnId)
      requires c in conns && conns[c].loop < |loops|
      modifies this
      ensures View() == ForceCloseNow(old(View()), c)
    {
      if conns[c].state == Connected || conns[c].state == Disconnecting {
        HandleClose(c);
      }
    }

    method ConnectDestroyed(c: ConnId)
      requires c in conns
      modifies this`conns, this`failed
      ensures View() == DestroyNow(old(View()), c)
    {
      var conn := conns[c];
      if conn.state == Connected {
        conn := conn.(state := Disconnected, polled := false, down := conn.down + 1);
      }
      if conn.polled || !conn.registered {
        failed := true;
        return;
      }
      conns := conns[c := conn.(registered := false, destroyed := conn.destroyed + 1)];
    }

    /** One functor of the batch of loop l. */
    method RunOne(l: LoopId)
      requires Safe(View()) && Enabled(View(), RunFunctor(l))
      modifies this
      ensures View() == Apply(old(View()), RunFunctor(l)) && Safe(View())
      ensures l < |loops| && loops[l].phase == Functors(old(loops[l].phase.left) - 1)
    {
      hide Safe, NotActive, Inv, Perform;
      StepKeeps(View(), RunFunctor(l));
      HeadIsAtHome(View(), l);
      RunFunctorPhase(View(), l);
      var t := loops[l].queue[0];
      loops := loops[l := Loop(loops[l].queue[1..], Functors(loops[l].phase.left - 1))];
      CallFunctor(t);
    }

    method CallFunctor(t: Task)
      requires t.c in conns && conns[t.c].loop < |loops|
      modifies this
      ensures View() == Perform(old(View()), t)
    {
      hide EstablishNow, RemoveNow, DestroyNow, ForceCloseNow;
      match t
      case Establish(c) => ConnectEstablished(c);
      case Remove(c) => RemoveConnectionInLoop(c);
      case Destroy(c) => ConnectDestroyed(c);
      case ForceClose(c) => ForceCloseInLoop(c);
      case Other(_) =>
    }

    /** The batch of loop l, to its end. */
    method RunBatch(l: LoopId)
      requires Safe(View()) && l < |loops| && loops[l].phase == Handling([])
      modifies this
      ensures var start := Next(old(View()), StartFunctors(l));
              var n := |old(loops)[l].queue|;
              && l < |start.loops| && start.loops[l].phase == Functors(n)
              && View() == Next(Ran(start, l, n), EndFunctors(l))
    {
      hide Safe, Perform, Inv, Ran;
      var n, k := |loops[l].queue|, 0;
      StepKeeps(View(), StartFunctors(l));
      loops := loops[l := loops[l].(phase := Functors(n))];
      ghost var start := View();
      RanNone(start, l);
      while loops[l].phase.left > 0
        invariant l < |loops| && k <= n && loops[l].phase == Functors(n - k)
        invariant Safe(start) && l < |start.loops| && start.loops[l].phase == Functors(n)
        invariant View() == Ran(start, l, k)
        decreases n - k
      {
        RunOne(l);
        k := k + 1;
        RanOneMore(start, l, k);
      }
      loops := loops[l := loops[l].(phase := Polling)];
    }

    method Shutdown(c: ConnId, fromOwnLoop: bool)
      requires c in conns && conns[c].loop < |loops|
      modifies this`conns, this`loops
      ensures View() == ShutdownAsked(old(View()), c, fromOwnLoop)
    {
      if conns[c].state == Connected {
        conns := conns[c := conns[c].(state := Disconnecting)];
        if !fromOwnLoop {
          QueueInLoop(conns[c].loop, Other(c));
        }
      }
    }

    method ForceClose(c: ConnId)
      requires c in conns && conns[c].loop < |loops|
      modifies this`conns, this`loops
      ensures View() == ForceCloseAsked(old(View()), c)
    {
      if conns[c].state == Connected || conns[c].state == Disconnecting {
        conns := conns[c := conns[c].(state := Disconnecting)];
        QueueInLoop(conns[c].loop, Task.ForceClose(c));
      }
    }

    /** handleEventWithGuard for the next channel that poll returned. */
    method HandleNext(l: LoopId, e: Event)
      requires Safe(View()) && Enabled(View(), HandleEvent(l, e))
      modifies this
      ensures View() == Next(old(View()), HandleEvent(l, e))
    {
      hide Safe, NotActive, Inv, Dispatch;
      ActiveIsPolled(View(), l);
      var c := loops[l].phase.active[0];
      loops := loops[l := loops[l].(phase := Handling(loops[l].phase.active[1..]))];
      DispatchEvent(c, e);
    }

    method DispatchEvent(c: ConnId, e: Event)
      requires c in conns && conns[c].loop < |loops|
      modifies this
      ensures View() == Dispatch(old(View()), c, e)
    {
      hide CloseNow;
      if e.hup && !e.in_ {
        HandleClose(c);
      }
      if (e.in_ || e.priOrRdhup) && e.endOfFile {
        HandleClose(c);
      }
    }
  }
}
