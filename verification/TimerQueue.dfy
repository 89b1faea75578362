/**
  muduo/net/TimerQueue.cc and Timer.cc, in one event-loop thread. Timers live at addresses that are
  reused after deletion; a sequence number is never reused. The timerfd is armed relative to the
  clock and reads as fired from its due time until it is read.
 */
module TimerQueue {
  import opened Wrappers
  import opened TimerList

  datatype Timer = Timer(sequence: nat, expiration: int, interval: nat, repeat: bool)
  datatype ActiveTimer = ActiveTimer(addr: nat, sequence: nat)
  datatype Arm = Arm(setAt: int, fireAt: int)
  type Heap = map<nat, Timer>

  const UINTPTR_MAX: nat := 0xffff_ffff_ffff_ffff
  const MIN_DELAY := 100

  datatype State = State(
    heap: Heap, timers: seq<Entry>, active: set<ActiveTimer>, canceling: set<ActiveTimer>,
    calling: bool, batch: seq<Entry>, ran: nat, batchTime: int,
    created: nat, clock: int, armed: Option<Arm>,
    // history only: the sequence numbers of deleted timers
    deleted: set<nat>)

  function IdOf(heap: Heap, addr: nat): ActiveTimer
    requires addr in heap
  {
    ActiveTimer(addr, heap[addr].sequence)
  }

  function EntryOf(heap: Heap, addr: nat): Entry
    requires addr in heap
  {
    Entry(heap[addr].expiration, addr)
  }

  // ---------- invariant ----------

  /** Live timers have distinct sequence numbers, and no sequence number is both live and deleted or forgotten. */
  ghost predicate HeapInv(heap: Heap, created: nat, deleted: set<nat>) {
    && (forall a :: a in heap ==> a < UINTPTR_MAX && 1 <= heap[a].sequence <= created)
    && (forall a :: a in heap ==> heap[a].sequence !in deleted)
    && (forall a, b :: a in heap && b in heap && a != b ==> heap[a].sequence != heap[b].sequence)
    && (forall q :: q in deleted ==> 1 <= q <= created)
    && (forall q: nat :: 1 <= q <= created && q !in deleted ==> exists a :: a in heap && heap[a].sequence == q)
  }

  /** The two indexes hold the same timers, under their current expirations. */
  predicate IndexesAgree(heap: Heap, timers: seq<Entry>, active: set<ActiveTimer>) {
    && Sorted(timers)
    && (forall e :: e in timers ==> e.addr in heap && e == EntryOf(heap, e.addr) && IdOf(heap, e.addr) in active)
    && (forall id :: id in active ==> id.addr in heap && id == IdOf(heap, id.addr) && EntryOf(heap, id.addr) in timers)
  }

  /** The running batch owns live timers that are in no index. */
  predicate BatchInv(heap: Heap, active: set<ActiveTimer>, batch: seq<Entry>) {
    && Sorted(batch)
    && (forall e :: e in batch ==> e.addr in heap && e == EntryOf(heap, e.addr) && IdOf(heap, e.addr) !in active)
  }

  /** The timerfd will fire in time for the first timer. */
  predicate Timely(timers: seq<Entry>, armed: Option<Arm>) {
    timers != [] ==>
      armed.Some? && (armed.value.fireAt <= timers[0].when || armed.value.fireAt <= armed.value.setAt + MIN_DELAY)
  }

  /** While callbacks run, a first timer that reset would not arm for is already armed for. */
  predicate ArmInv(timers: seq<Entry>, armed: Option<Arm>, calling: bool) {
    !calling || (timers != [] && timers[0].when <= 0) ==> Timely(timers, armed)
  }

  ghost predicate Inv(s: State) {
    && HeapInv(s.heap, s.created, s.deleted)
    && IndexesAgree(s.heap, s.timers, s.active)
    && BatchInv(s.heap, s.active, s.batch)
    && ArmInv(s.timers, s.armed, s.calling) && (s.armed.Some? ==> s.armed.value.setAt <= s.clock)
    && s.clock > 0 && s.batchTime > 0 && s.ran <= |s.batch| && (!s.calling ==> s.batch == [])
  }

  // ---------- steps ----------

  function Armed(s: State, expiration: int): State {
    var delay := expiration - s.clock;
    s.(armed := Some(Arm(s.clock, s.clock + if delay < MIN_DELAY then MIN_DELAY else delay)))
  }

  /** new Timer, in any thread. */
  function Create(s: State, addr: nat, when: int, interval: nat, repeat: bool): State {
    s.(heap := s.heap[addr := Timer(s.created + 1, when, interval, repeat)], created := s.created + 1)
  }

  /** insert: both indexes. */
  function Inserting(s: State, addr: nat): State
    requires addr in s.heap
  {
    s.(timers := Inserted(s.timers, EntryOf(s.heap, addr)), active := s.active + {IdOf(s.heap, addr)})
  }

  predicate EarliestChanged(s: State, addr: nat)
    requires addr in s.heap
  {
    s.timers == [] || s.heap[addr].expiration < s.timers[0].when
  }

  function AddInLoop(s: State, addr: nat): State
    requires addr in s.heap
  {
    var t := Inserting(s, addr);
    if EarliestChanged(s, addr) then Armed(t, s.heap[addr].expiration) else t
  }

  function Deleting(s: State, addr: nat): State
    requires addr in s.heap
  {
    s.(heap := s.heap - {addr}, deleted := s.deleted + {s.heap[addr].sequence})
  }

  function Erasing(s: State, addr: nat): State
    requires addr in s.heap
  {
    s.(timers := Erased(s.timers, EntryOf(s.heap, addr)), active := s.active - {IdOf(s.heap, addr)})
  }

  function CancelInLoop(s: State, id: ActiveTimer): State
    requires IndexesAgree(s.heap, s.timers, s.active)
  {
    if id in s.active then Deleting(Erasing(s, id.addr), id.addr)
    else if s.calling then s.(canceling := s.canceling + {id})
    else s
  }

  function ExpiredCount(s: State): nat { LowerBound(s.timers, Entry(s.clock, UINTPTR_MAX)) }

  function IdsOf(heap: Heap, es: seq<Entry>): set<ActiveTimer> {
    set e | e in es && e.addr in heap :: IdOf(heap, e.addr)
  }

  /** The first half of handleRead: read the timerfd, take out the expired timers. */
  function Begin(s: State): State {
    var k := ExpiredCount(s);
    s.(armed := if s.armed.Some? && s.armed.value.fireAt <= s.clock then None else s.armed,
       timers := s.timers[k..], active := s.active - IdsOf(s.heap, s.timers[..k]),
       calling := true, canceling := {}, batch := s.timers[..k], ran := 0, batchTime := s.clock)
  }

  function RunNext(s: State): State { s.(ran := s.ran + 1) }

  function Restarting(s: State, addr: nat): State
    requires addr in s.heap
  {
    s.(heap := s.heap[addr := s.heap[addr].(expiration := s.batchTime + s.heap[addr].interval)])
  }

  predicate Reinserts(s: State, addr: nat)
    requires addr in s.heap
  {
    s.heap[addr].repeat && IdOf(s.heap, addr) !in s.canceling
  }

  /** One iteration of reset: restart and reinsert, or delete. */
  function ResetFirst(s: State): State
    requires s.batch != [] && s.batch[0].addr in s.heap
  {
    var addr := s.batch[0].addr;
    var t := s.(batch := s.batch[1..], ran := 0);
    if Reinserts(s, addr) then Inserting(Restarting(t, addr), addr) else Deleting(t, addr)
  }

  ghost function ResetAll(s: State): (t: State)
    requires Inv(s)
    ensures Inv(t) && t.batch == [] && t.calling == s.calling && t.clock == s.clock && t.armed == s.armed
    decreases |s.batch|
  {
    if s.batch == [] then s
    else
      ResetKeeps(s);
      ResetAll(ResetFirst(s))
  }

  /** The end of handleRead: arm for the next expiration if there is a valid one. */
  function Finish(s: State): State {
    var t := s.(calling := false);
    if t.timers != [] && t.timers[0].when > 0 then Armed(t, t.timers[0].when) else t
  }

  // ---------- each step keeps the invariant ----------

  lemma CreateHeap(heap: Heap, created: nat, deleted: set<nat>, addr: nat, timer: Timer)
    requires HeapInv(heap, created, deleted) && addr !in heap && addr < UINTPTR_MAX && timer.sequence == created + 1
    ensures HeapInv(heap[addr := timer], created + 1, deleted)
  {
    var h := heap[addr := timer];
    forall q: nat | 1 <= q <= created + 1 && q !in deleted ensures exists a :: a in h && h[a].sequence == q {
      if q == created + 1 {
        assert h[addr].sequence == q;
      } else {
        var a :| a in heap && heap[a].sequence == q;
        assert h[a].sequence == q;
      }
    }
  }

  lemma CreateKeeps(s: State, addr: nat, when: int, interval: nat, repeat: bool)
    requires Inv(s) && addr !in s.heap && addr < UINTPTR_MAX
    ensures Inv(Create(s, addr, when, interval, repeat))
  {
    var timer := Timer(s.created + 1, when, interval, repeat);
    hide HeapInv, IndexesAgree, BatchInv, ArmInv;
    var t := Create(s, addr, when, interval, repeat);
    assert t == s.(heap := s.heap[addr := timer], created := s.created + 1);
    hide Create;
    assert HeapInv(t.heap, t.created, t.deleted) by { CreateHeap(s.heap, s.created, s.deleted, addr, timer); }
    assert IndexesAgree(t.heap, t.timers, t.active) && BatchInv(t.heap, t.active, t.batch) by {
      CreateAgrees(s, addr, timer);
    }
  }

  lemma CreateAgrees(s: State, addr: nat, timer: Timer)
    requires IndexesAgree(s.heap, s.timers, s.active) && BatchInv(s.heap, s.active, s.batch) && addr !in s.heap
    ensures IndexesAgree(s.heap[addr := timer], s.timers, s.active)
    ensures BatchInv(s.heap[addr := timer], s.active, s.batch)
  {
    hide Sorted;
  }

  /** insert asserts that neither set had the element; afterwards the indexes still agree. */
  lemma InsertingAgrees(s: State, addr: nat)
    requires IndexesAgree(s.heap, s.timers, s.active) && addr in s.heap && IdOf(s.heap, addr) !in s.active
    ensures EntryOf(s.heap, addr) !in s.timers
    ensures var t := Inserting(s, addr);
            && IndexesAgree(t.heap, t.timers, t.active)
            && t.timers[0] == (if s.timers == [] || Less(EntryOf(s.heap, addr), s.timers[0])
                               then EntryOf(s.heap, addr) else s.timers[0])
  {
    InsertedSorted(s.timers, EntryOf(s.heap, addr));
    InsertedElements(s.timers, EntryOf(s.heap, addr));
    hide Sorted, Inserted, Less;
  }

  lemma AddKeeps(s: State, addr: nat)
    requires Inv(s) && Pending(s, addr)
    ensures Inv(AddInLoop(s, addr))
  {
    InsertingAgrees(s, addr);
    var t := AddInLoop(s, addr);
    assert BatchInv(t.heap, t.active, t.batch);
    hide HeapInv, IndexesAgree, BatchInv;
  }

  /** Created, but not yet inserted. */
  ghost predicate Pending(s: State, addr: nat) {
    addr in s.heap && IdOf(s.heap, addr) !in s.active && forall e :: e in s.batch ==> e.addr != addr
  }

  lemma DeletingHeap(heap: Heap, created: nat, deleted: set<nat>, addr: nat)
    requires HeapInv(heap, created, deleted) && addr in heap
    ensures HeapInv(heap - {addr}, created, deleted + {heap[addr].sequence})
  {
    var h, d := heap - {addr}, deleted + {heap[addr].sequence};
    forall q: nat | 1 <= q <= created && q !in d ensures exists a :: a in h && h[a].sequence == q {
      var a :| a in heap && heap[a].sequence == q;
      assert a in h && h[a].sequence == q;
    }
  }

  lemma ErasingAgrees(s: State, addr: nat)
    requires IndexesAgree(s.heap, s.timers, s.active) && addr in s.heap && IdOf(s.heap, addr) in s.active
    ensures EntryOf(s.heap, addr) in s.timers
    ensures var t := Erasing(s, addr);
            && IndexesAgree(t.heap, t.timers, t.active) && IdOf(t.heap, addr) !in t.active
            && (t.timers != [] ==> s.timers[0].when <= t.timers[0].when)
  {
    ErasedSorted(s.timers, EntryOf(s.heap, addr));
    ErasedElements(s.timers, EntryOf(s.heap, addr));
    hide Sorted, Erased;
  }

  lemma DeletingAgrees(s: State, addr: nat)
    requires IndexesAgree(s.heap, s.timers, s.active) && addr in s.heap && IdOf(s.heap, addr) !in s.active
    requires BatchInv(s.heap, s.active, s.batch) && forall e :: e in s.batch ==> e.addr != addr
    ensures var t := Deleting(s, addr);
            IndexesAgree(t.heap, t.timers, t.active) && BatchInv(t.heap, t.active, t.batch)
  {
    hide Sorted;
  }

  lemma CancelKeeps(s: State, id: ActiveTimer)
    requires Inv(s)
    ensures Inv(CancelInLoop(s, id))
  {
    if id in s.active {
      ErasingAgrees(s, id.addr);
      var t := Erasing(s, id.addr);
      assert BatchInv(t.heap, t.active, t.batch);
      assert forall e :: e in t.batch ==> e.addr != id.addr;
      DeletingAgrees(t, id.addr);
      DeletingHeap(s.heap, s.created, s.deleted, id.addr);
      hide HeapInv, IndexesAgree, BatchInv, Erased;
    }
  }

  /** getExpired: the batch is exactly the timers due by now, in order. */
  lemma BeginSplits(s: State)
    requires Inv(s)
    ensures var t := Begin(s);
            && s.timers == t.batch + t.timers && Sorted(t.batch) && Sorted(t.timers)
            && (forall e :: e in t.batch ==> e.when <= s.clock && e !in t.timers)
            && (forall e :: e in t.timers ==> s.clock < e.when)
  {
    assert forall e :: e in s.timers ==> e.addr < UINTPTR_MAX by {
      HeapAddresses(s.heap, s.created, s.deleted);
    }
    SplitDue(s.timers, s.clock);
  }

  lemma SplitDue(timers: seq<Entry>, now: int)
    requires Sorted(timers) && forall e :: e in timers ==> e.addr < UINTPTR_MAX
    ensures var k := LowerBound(timers, Entry(now, UINTPTR_MAX));
            && timers == timers[..k] + timers[k..] && Sorted(timers[..k]) && Sorted(timers[k..])
            && (forall e :: e in timers[..k] ==> e.when <= now && e !in timers[k..])
            && (forall e :: e in timers[k..] ==> now < e.when)
  {
    hide LowerBound, Sorted, Less;
    SplitAt(timers, now, UINTPTR_MAX);
    SplitElements(timers, LowerBound(timers, Entry(now, UINTPTR_MAX)));
  }

  lemma HeapAddresses(heap: Heap, created: nat, deleted: set<nat>)
    requires HeapInv(heap, created, deleted)
    ensures forall a :: a in heap ==> a < UINTPTR_MAX
  {}

  /** getExpired leaves both indexes without the batch. */
  lemma BeginAgrees(s: State, k: nat)
    requires IndexesAgree(s.heap, s.timers, s.active) && k <= |s.timers|
    ensures IndexesAgree(s.heap, s.timers[k..], s.active - IdsOf(s.heap, s.timers[..k]))
    ensures BatchInv(s.heap, s.active - IdsOf(s.heap, s.timers[..k]), s.timers[..k])
  {
    SplitElements(s.timers, k);
    hide Sorted;
    var expired := IdsOf(s.heap, s.timers[..k]);
    assert forall id :: id in s.active ==> (id in expired <==> EntryOf(s.heap, id.addr) in s.timers[..k]);
  }

  lemma BeginKeeps(s: State)
    requires Inv(s) && !s.calling
    ensures Inv(Begin(s))
  {
    BeginSplits(s);
    BeginAgrees(s, ExpiredCount(s));
    var t := Begin(s);
    assert t.timers != [] ==> t.timers[0] in t.timers;
    hide HeapInv, IndexesAgree, BatchInv, ExpiredCount;
  }

  /** restart changes the expiration of a timer that is in no index. */
  lemma RestartingAgrees(s: State, addr: nat)
    requires HeapInv(s.heap, s.created, s.deleted) && IndexesAgree(s.heap, s.timers, s.active)
    requires addr in s.heap && IdOf(s.heap, addr) !in s.active
    requires BatchInv(s.heap, s.active, s.batch) && forall e :: e in s.batch ==> e.addr != addr
    ensures var t := Restarting(s, addr);
            && HeapInv(t.heap, t.created, t.deleted) && IndexesAgree(t.heap, t.timers, t.active)
            && BatchInv(t.heap, t.active, t.batch) && IdOf(t.heap, addr) == IdOf(s.heap, addr)
  {
    RestartingHeap(s, addr);
    hide HeapInv;
    RestartingIndexes(s, addr);
    RestartingBatch(s, addr);
    hide IndexesAgree, BatchInv;
  }

  lemma RestartingHeap(s: State, addr: nat)
    requires HeapInv(s.heap, s.created, s.deleted) && addr in s.heap
    ensures var t := Restarting(s, addr); HeapInv(t.heap, t.created, t.deleted)
  {
    var t := Restarting(s, addr);
    SameSequence(s.heap, s.created, s.deleted, addr, t.heap[addr]);
    assert t.heap == s.heap[addr := t.heap[addr]];
  }

  lemma SameSequence(heap: Heap, created: nat, deleted: set<nat>, addr: nat, timer: Timer)
    requires HeapInv(heap, created, deleted) && addr in heap && timer.sequence == heap[addr].sequence
    ensures HeapInv(heap[addr := timer], created, deleted)
  {
    var h := heap[addr := timer];
    forall q: nat | 1 <= q <= created && q !in deleted ensures exists a :: a in h && h[a].sequence == q {
      var a :| a in heap && heap[a].sequence == q;
      assert a in h && h[a].sequence == q;
    }
  }

  lemma RestartingIndexes(s: State, addr: nat)
    requires IndexesAgree(s.heap, s.timers, s.active) && addr in s.heap && IdOf(s.heap, addr) !in s.active
    ensures var t := Restarting(s, addr); IndexesAgree(t.heap, t.timers, t.active)
  {
    hide Sorted;
  }

  lemma RestartingBatch(s: State, addr: nat)
    requires addr in s.heap && BatchInv(s.heap, s.active, s.batch) && forall e :: e in s.batch ==> e.addr != addr
    ensures var t := Restarting(s, addr); BatchInv(t.heap, t.active, t.batch)
  {
    hide Sorted;
  }

  lemma BatchTail(s: State)
    requires BatchInv(s.heap, s.active, s.batch) && s.batch != []
    ensures BatchInv(s.heap, s.active, s.batch[1..])
    ensures forall e :: e in s.batch[1..] ==> e.addr != s.batch[0].addr
  {
    assert forall i :: 1 <= i < |s.batch| ==> Less(s.batch[0], s.batch[i]);
  }

  lemma ResetKeeps(s: State)
    requires Inv(s) && s.batch != []
    ensures Inv(ResetFirst(s))
  {
    FirstLive(s);
    hide Inv;
    if Reinserts(s, s.batch[0].addr) {
      ReinsertKeeps(s);
    } else {
      DeleteKeeps(s);
    }
  }

  lemma ReinsertKeeps(s: State)
    requires Inv(s) && s.batch != [] && s.batch[0].addr in s.heap && Reinserts(s, s.batch[0].addr)
    ensures Inv(ResetFirst(s))
  {
    BatchTail(s);
    FirstNotActive(s);
    hide HeapInv, IndexesAgree, BatchInv, Inserted;
    var addr := s.batch[0].addr;
    var t := s.(batch := s.batch[1..], ran := 0);
    RestartingAgrees(t, addr);
    var u := Restarting(t, addr);
    InsertingAgrees(u, addr);
    InsertingBatch(u, addr);
  }

  lemma FirstNotActive(s: State)
    requires BatchInv(s.heap, s.active, s.batch) && s.batch != []
    ensures s.batch[0].addr in s.heap && IdOf(s.heap, s.batch[0].addr) !in s.active
  {
    assert s.batch[0] in s.batch;
  }

  lemma InsertingBatch(s: State, addr: nat)
    requires BatchInv(s.heap, s.active, s.batch) && addr in s.heap && forall e :: e in s.batch ==> e.addr != addr
    ensures var t := Inserting(s, addr); BatchInv(t.heap, t.active, t.batch)
  {
    hide Sorted, Inserted;
  }

  lemma DeleteKeeps(s: State)
    requires Inv(s) && s.batch != [] && s.batch[0].addr in s.heap && !Reinserts(s, s.batch[0].addr)
    ensures Inv(ResetFirst(s))
  {
    BatchTail(s);
    var addr := s.batch[0].addr;
    var t := s.(batch := s.batch[1..], ran := 0);
    DeletingAgrees(t, addr);
    DeletingHeap(s.heap, s.created, s.deleted, addr);
    hide HeapInv, IndexesAgree, BatchInv;
  }

  lemma FinishKeeps(s: State)
    requires Inv(s) && s.batch == []
    ensures Inv(Finish(s))
  {
    hide HeapInv, IndexesAgree, BatchInv;
  }

  // ---------- every run ----------

  datatype Step =
    | CreateStep(addr: nat, when: int, interval: nat, repeat: bool)
    | AddStep(addr: nat)
    | CancelStep(id: ActiveTimer)
    | BeginStep
    | RunStep
    | EndStep
    | TickStep(clock: int)

  function Initial(clock: int): State {
    State(map[], [], {}, {}, false, [], 0, 1, 0, clock, None, {})
  }

  ghost predicate Enabled(s: State, step: Step) {
    match step
    case CreateStep(addr, _, _, _) => addr !in s.heap && addr < UINTPTR_MAX
    case AddStep(addr) => Pending(s, addr)
    case CancelStep(_) => true
    case BeginStep => !s.calling
    case RunStep => s.calling && s.ran < |s.batch|
    case EndStep => s.calling && s.ran == |s.batch|
    case TickStep(clock) => clock >= s.clock
  }

  ghost function Apply(s: State, step: Step): State
    requires Inv(s) && Enabled(s, step)
  {
    match step
    case CreateStep(addr, when, interval, repeat) => Create(s, addr, when, interval, repeat)
    case AddStep(addr) => AddInLoop(s, addr)
    case CancelStep(id) => CancelInLoop(s, id)
    case BeginStep => Begin(s)
    case RunStep => RunNext(s)
    case EndStep => Finish(ResetAll(s))
    case TickStep(clock) => s.(clock := clock)
  }

  lemma StepKeeps(s: State, step: Step)
    requires Inv(s) && Enabled(s, step)
    ensures Inv(Apply(s, step))
  {
    hide HeapInv, IndexesAgree, BatchInv, ArmInv;
    match step
    case CreateStep(addr, when, interval, repeat) => CreateKeeps(s, addr, when, interval, repeat);
    case AddStep(addr) => AddKeeps(s, addr);
    case CancelStep(id) => CancelKeeps(s, id);
    case BeginStep => BeginKeeps(s);
    case RunStep =>
    case EndStep => FinishKeeps(ResetAll(s));
    case TickStep(clock) =>
  }

  ghost predicate LegalRun(s: State, steps: seq<Step>)
    requires Inv(s)
    decreases |steps|
  {
    steps == [] || (Enabled(s, steps[0]) && (StepKeeps(s, steps[0]); LegalRun(Apply(s, steps[0]), steps[1..])))
  }

  ghost function Run(s: State, steps: seq<Step>): (t: State)
    requires Inv(s) && LegalRun(s, steps)
    ensures Inv(t)
    decreases |steps|
  {
    if steps == [] then s else (StepKeeps(s, steps[0]); Run(Apply(s, steps[0]), steps[1..]))
  }

  lemma InitialInv(clock: int)
    requires clock > 0
    ensures Inv(Initial(clock))
  {}

  /** In every reachable state the indexes agree and the timerfd is armed in time for the first timer. */
  lemma ReachableStates(clock: int, steps: seq<Step>)
    requires clock > 0 && (InitialInv(clock); LegalRun(Initial(clock), steps))
    ensures (InitialInv(clock);
            var s := Run(Initial(clock), steps);
            && (forall e :: e in s.timers <==>
                  e.addr in s.heap && e.when == s.heap[e.addr].expiration && IdOf(s.heap, e.addr) in s.active)
            && (forall id :: id in s.active ==> id.addr in s.heap && id == IdOf(s.heap, id.addr))
            && |s.timers| == |s.active|
            && (!s.calling && s.timers != [] ==>
                  && s.armed.Some? && s.armed.value.setAt <= s.clock
                  && (s.armed.value.fireAt <= s.timers[0].when
                      || s.armed.value.fireAt <= s.armed.value.setAt + MIN_DELAY))
            && (!s.calling && s.timers != [] ==>
                  s.armed.value.fireAt <= s.timers[0].when || s.armed.value.fireAt <= s.clock + MIN_DELAY)
            && (forall i, j :: 0 <= i < j < |s.timers| ==> s.timers[i].when <= s.timers[j].when))
  {
    InitialInv(clock);
    var s := Run(Initial(clock), steps);
    hide Run, LegalRun, HeapInv, BatchInv;
    SizesAgree(s);
  }

  /** timers_.size() == activeTimers_.size(), asserted throughout the code. */
  lemma SizesAgree(s: State)
    requires IndexesAgree(s.heap, s.timers, s.active)
    ensures |s.timers| == |s.active|
  {
    CountIds(s.heap, s.timers);
    assert s.active == IdsOf(s.heap, s.timers) by {
      hide Sorted;
      forall id | id in s.active ensures id in IdsOf(s.heap, s.timers) {
        assert EntryOf(s.heap, id.addr) in s.timers;
      }
    }
  }

  lemma {:induction false} CountIds(heap: Heap, es: seq<Entry>)
    requires Sorted(es) && forall e :: e in es ==> e.addr in heap && e == EntryOf(heap, e.addr)
    ensures |IdsOf(heap, es)| == |es|
    decreases |es|
  {
    if es == [] {
      assert IdsOf(heap, es) == {};
    } else {
      var n := |es| - 1;
      assert forall e :: e in es <==> e in es[..n] || e == es[n] by {
        assert es == es[..n] + [es[n]];
      }
      CountIds(heap, es[..n]);
      assert es[n] !in es[..n];
      assert IdsOf(heap, es) == IdsOf(heap, es[..n]) + {IdOf(heap, es[n].addr)};
      assert IdOf(heap, es[n].addr) !in IdsOf(heap, es[..n]);
    }
  }

  // ---------- ownership ----------

  ghost predicate IsPending(s: State, q: nat) { exists a :: a in s.heap && s.heap[a].sequence == q && Pending(s, a) }
  ghost predicate IsActive(s: State, q: nat) { exists a :: ActiveTimer(a, q) in s.active }
  ghost predicate IsRunning(s: State, q: nat) {
    exists e :: e in s.batch && e.addr in s.heap && s.heap[e.addr].sequence == q
  }

  function Count(b: bool): nat { if b then 1 else 0 }

  /** Every timer ever created is in exactly one place: not yet inserted, indexed, in the batch, or deleted. */
  lemma ExactlyOnePlace(s: State, q: nat)
    requires Inv(s) && 1 <= q <= s.created
    ensures Count(IsPending(s, q)) + Count(IsActive(s, q)) + Count(IsRunning(s, q)) + Count(q in s.deleted) == 1
  {
    hide Sorted, ArmInv;
    if q !in s.deleted {
      var a :| a in s.heap && s.heap[a].sequence == q;
      if IsActive(s, q) {
        assert ActiveTimer(a, q) in s.active;
      } else if IsRunning(s, q) {
        assert exists e :: e in s.batch && e.addr == a;
      } else {
        assert Pending(s, a);
      }
    }
  }

  /** The effect of getExpired on both indexes. */
  predicate ExpiredTaken(heap: Heap, now: int, timers: seq<Entry>, active: set<ActiveTimer>,
                         expired: seq<Entry>, timers': seq<Entry>, active': set<ActiveTimer>) {
    var k := LowerBound(timers, Entry(now, UINTPTR_MAX));
    expired == timers[..k] && timers' == timers[k..] && active' == active - IdsOf(heap, expired)
  }

  lemma BeginIs(s: State, t: State)
    requires ExpiredTaken(s.heap, s.clock, s.timers, s.active, t.batch, t.timers, t.active)
    requires t == s.(armed := if s.armed.Some? && s.armed.value.fireAt <= s.clock then None else s.armed,
                     timers := t.timers, active := t.active, calling := true, canceling := {}, batch := t.batch,
                     ran := 0, batchTime := s.clock)
    ensures t == Begin(s)
  {
    hide LowerBound, IdsOf;
  }

  // ---------- what reset does to a batch ----------

  lemma ResetFirstFrame(s: State, a: nat)
    requires Inv(s) && s.batch != [] && a != s.batch[0].addr
    ensures var t := ResetFirst(s);
            && t.batch == s.batch[1..] && t.canceling == s.canceling && t.batchTime == s.batchTime
            && (a in t.heap <==> a in s.heap)
            && (a in s.heap ==>
                  t.heap[a] == s.heap[a] && (IdOf(s.heap, a) in t.active <==> IdOf(s.heap, a) in s.active))
  {
    hide Inserted, HeapInv, Sorted, ArmInv;
  }

  /** A timer outside the batch, or an address out of use, is left alone by the whole loop. */
  lemma {:induction false} ResetAllFrame(s: State, a: nat)
    requires Inv(s) && forall e :: e in s.batch ==> e.addr != a
    ensures var t := ResetAll(s);
            && (a in t.heap <==> a in s.heap)
            && (a in s.heap ==>
                  t.heap[a] == s.heap[a] && (IdOf(s.heap, a) in t.active <==> IdOf(s.heap, a) in s.active))
    decreases |s.batch|
  {
    if s.batch != [] {
      FirstLive(s);
      hide Inv, ResetFirst;
      ResetKeeps(s);
      ResetFirstFrame(s, a);
      ResetAllFrame(ResetFirst(s), a);
    }
  }

  lemma ResetFirstSettles(s: State)
    requires Inv(s) && s.batch != []
    ensures var a, t := s.batch[0].addr, ResetFirst(s);
            && (forall e :: e in t.batch ==> e.addr != a)
            && a in s.heap
            && (if Reinserts(s, a) then
                  && a in t.heap && t.heap[a] == s.heap[a].(expiration := s.batchTime + s.heap[a].interval)
                  && IdOf(t.heap, a) in t.active
                else a !in t.heap && s.heap[a].sequence in t.deleted)
  {
    BatchTail(s);
    hide Inserted, HeapInv, IndexesAgree, Sorted, ArmInv;
  }

  /** Back under its sequence number one interval after the batch time if repeating and not cancelled, else deleted. */
  predicate SettledBy(s: State, t: State, a: nat)
    requires a in s.heap
  {
    var timer := s.heap[a];
    if timer.repeat && ActiveTimer(a, timer.sequence) !in s.canceling then
      Entry(s.batchTime + timer.interval, a) in t.timers && ActiveTimer(a, timer.sequence) in t.active
    else a !in t.heap && timer.sequence in t.deleted
  }

  /** The reset loop settles every timer of the batch. */
  lemma {:induction false} BatchSettled(s: State, e: Entry)
    requires Inv(s) && e in s.batch && e.addr in s.heap
    ensures SettledBy(s, ResetAll(s), e.addr)
    decreases |s.batch|
  {
    hide *;
    FirstLive(s);
    if e.addr == s.batch[0].addr {
      FirstSettled(s);
    } else {
      var u := ResetFirst(s);
      ResetKeeps(s);
      ResetFirstFrame(s, e.addr);
      assert s.batch == [s.batch[0]] + s.batch[1..];
      BatchSettled(u, e);
      ResetAllStep(s);
      SettledSame(s, u, ResetAll(u), e.addr);
    }
  }

  lemma ResetAllStep(s: State)
    requires Inv(s) && s.batch != []
    ensures s.batch[0].addr in s.heap && Inv(ResetFirst(s)) && ResetAll(s) == ResetAll(ResetFirst(s))
  {
    FirstLive(s);
    ResetKeeps(s);
    hide Inv, ResetFirst;
  }

  lemma SettledSame(s: State, u: State, t: State, a: nat)
    requires a in s.heap && a in u.heap && u.heap[a] == s.heap[a]
    requires u.canceling == s.canceling && u.batchTime == s.batchTime && SettledBy(u, t, a)
    ensures SettledBy(s, t, a)
  {}

  lemma FirstSettled(s: State)
    requires Inv(s) && s.batch != [] && s.batch[0].addr in s.heap
    ensures SettledBy(s, ResetAll(s), s.batch[0].addr)
  {
    hide Inv, ResetFirst, ResetAll, Reinserts, SettledBy;
    var a := s.batch[0].addr;
    var u := ResetFirst(s);
    ResetAllStep(s);
    ResetFirstSettles(s);
    ResetAllFrame(u, a);
    ActiveIsListed(ResetAll(u), a);
    if !Reinserts(s, a) {
      ResetDeletedStays(u, s.heap[a].sequence);
    }
    SettledUnfolds(s, ResetAll(u), a);
  }

  lemma SettledUnfolds(s: State, t: State, a: nat)
    requires a in s.heap
    requires Reinserts(s, a) ==>
               && a in t.heap && t.heap[a] == s.heap[a].(expiration := s.batchTime + s.heap[a].interval)
               && IdOf(t.heap, a) in t.active && EntryOf(t.heap, a) in t.timers
    requires !Reinserts(s, a) ==> a !in t.heap && s.heap[a].sequence in t.deleted
    ensures SettledBy(s, t, a)
  {}

  lemma FirstLive(s: State)
    requires Inv(s) && s.batch != []
    ensures s.batch[0].addr in s.heap
  {}

  lemma ActiveIsListed(s: State, a: nat)
    requires Inv(s)
    ensures a in s.heap && IdOf(s.heap, a) in s.active ==> EntryOf(s.heap, a) in s.timers
  {
    hide Sorted, HeapInv, BatchInv, ArmInv;
  }

  // ---------- cancellation ----------

  /** Inserted and not yet deleted, under this very id. */
  ghost predicate InsertedTimer(s: State, id: ActiveTimer) {
    id.addr in s.heap && id == IdOf(s.heap, id.addr) && !Pending(s, id.addr)
  }

  /** Deleted, or marked so that the reset of the running batch will delete it. */
  ghost predicate Cancelled(s: State, id: ActiveTimer) {
    id.sequence in s.deleted || (id in s.canceling && s.calling && InsertedTimer(s, id) && id !in s.active)
  }

  /** Cancelling a live timer works exactly when addTimerInLoop has inserted it. */
  lemma CancelTakesEffect(s: State, id: ActiveTimer)
    requires Inv(s) && id.addr in s.heap && id == IdOf(s.heap, id.addr)
    ensures Cancelled(CancelInLoop(s, id), id) <==> InsertedTimer(s, id)
  {
    hide Sorted, ArmInv, Erased, Less;
  }

  /** Such a run: a timer cancelled between its creation and its insertion is inserted all the same. */
  lemma CancelTooEarly() returns (steps: seq<Step>, id: ActiveTimer)
    ensures (InitialInv(1); LegalRun(Initial(1), steps))
    ensures |steps| == 3 && steps[1] == CancelStep(id) && steps[2] == AddStep(id.addr)
    ensures (InitialInv(1); id in Run(Initial(1), steps).active)
  {
    id := ActiveTimer(0, 1);
    steps := [CreateStep(0, 5, 0, false), CancelStep(id), AddStep(0)];
    InitialInv(1);
    var s1 := Apply(Initial(1), steps[0]);
    StepKeeps(Initial(1), steps[0]);
    var s2 := Apply(s1, steps[1]);
    StepKeeps(s1, steps[1]);
    assert s2 == s1;
    StepKeeps(s2, steps[2]);
    var s3 := Apply(s2, steps[2]);
    assert id in s3.active;
    hide Inv, Apply;
    assert steps[1..][1..] == [AddStep(0)] && steps[1..][1..][1..] == [];
    assert LegalRun(s2, [AddStep(0)]) && Run(s2, [AddStep(0)]) == s3;
    assert LegalRun(s1, steps[1..]) && Run(s1, steps[1..]) == s3;
  }

  /** An id whose timer is gone, even if its address is in use again, removes nothing. */
  lemma StaleIdRemovesNothing(s: State, id: ActiveTimer)
    requires Inv(s) && (id.addr in s.heap ==> s.heap[id.addr].sequence != id.sequence)
    ensures var t := CancelInLoop(s, id);
            && t.(canceling := s.canceling) == s && t.canceling <= s.canceling + {id}
            && forall a :: a in s.heap ==> Reinserts(t, a) == Reinserts(s, a)
  {}

  lemma {:induction false} ResetDeletes(s: State, id: ActiveTimer)
    requires Inv(s) && s.calling
    requires Cancelled(s, id)
    ensures Cancelled(ResetAll(s), id) && (s.batch == [] ==> id.sequence in s.deleted)
    ensures id.sequence in ResetAll(s).deleted
    decreases |s.batch|
  {
    if s.batch == [] {
      assert id.sequence in s.deleted;
    } else {
      ResetKeeps(s);
      var t := ResetFirst(s);
      ResetFirstCancelled(s, id);
      ResetDeletes(t, id);
    }
  }

  lemma ResetFirstCancelled(s: State, id: ActiveTimer)
    requires Inv(s) && s.calling && s.batch != [] && Cancelled(s, id)
    ensures Cancelled(ResetFirst(s), id) && ResetFirst(s).calling
  {
    hide Sorted, ArmInv, Inserted, HeapInv, IndexesAgree;
    BatchTail(s);
    var first := s.batch[0];
    var t := ResetFirst(s);
    if id.sequence !in s.deleted && first.addr != id.addr {
      assert t.heap[id.addr] == s.heap[id.addr];
      var e :| e in s.batch && e.addr == id.addr;
      assert s.batch == [first] + s.batch[1..];
      assert e in t.batch;
    }
  }

  lemma CancelledStays(s: State, id: ActiveTimer, step: Step)
    requires Inv(s) && Enabled(s, step) && Cancelled(s, id)
    ensures Cancelled(Apply(s, step), id)
    ensures step.BeginStep? || step.EndStep? ==> id.sequence in Apply(s, step).deleted
  {
    hide Inv;
    if step.EndStep? {
      ResetDeletes(s, id);
    } else {
      hide Cancelled;
      match step
      case CancelStep(other) => CancelledByCancel(s, id, other);
      case AddStep(addr) => CancelledByAdd(s, id, addr);
      case _ => CancelledOtherwise(s, id, step);
    }
  }

  lemma CancelledByCancel(s: State, id: ActiveTimer, other: ActiveTimer)
    requires Inv(s) && Cancelled(s, id)
    ensures Cancelled(CancelInLoop(s, other), id)
  {
    hide Sorted, ArmInv, Erased, HeapInv;
  }

  lemma CancelledByAdd(s: State, id: ActiveTimer, addr: nat)
    requires Inv(s) && Cancelled(s, id) && Pending(s, addr)
    ensures Cancelled(AddInLoop(s, addr), id)
  {
    hide Sorted, ArmInv, Inserted, HeapInv;
  }

  lemma CancelledOtherwise(s: State, id: ActiveTimer, step: Step)
    requires Inv(s) && Enabled(s, step) && Cancelled(s, id)
    requires !step.EndStep? && !step.CancelStep? && !step.AddStep?
    ensures Cancelled(Apply(s, step), id)
    ensures step.BeginStep? ==> id.sequence in Apply(s, step).deleted
  {
    hide Sorted, ArmInv, HeapInv, IdsOf, LowerBound, ResetAll, Erased, Inserted;
  }

  /** The sequence number of a deleted timer is in no batch. */
  lemma DeletedNotRunning(s: State, q: nat)
    requires Inv(s) && q in s.deleted
    ensures !IsRunning(s, q) && !IsActive(s, q) && !IsPending(s, q)
  {
    hide Sorted, ArmInv;
  }

  lemma {:induction false} CancelledInRun(s: State, id: ActiveTimer, steps: seq<Step>)
    requires Inv(s) && LegalRun(s, steps) && Cancelled(s, id)
    ensures Cancelled(Run(s, steps), id)
    ensures (exists k :: 0 <= k < |steps| && steps[k].BeginStep?) ==> id.sequence in Run(s, steps).deleted
    ensures id.sequence in s.deleted ==> id.sequence in Run(s, steps).deleted
    decreases |steps|
  {
    if steps != [] {
      hide Cancelled, Inv, Apply, Enabled;
      StepKeeps(s, steps[0]);
      CancelledStays(s, id, steps[0]);
      if id.sequence in s.deleted {
        DeletedStays(s, id.sequence, steps[0]);
      }
      CancelledInRun(Apply(s, steps[0]), id, steps[1..]);
      if k :| 0 <= k < |steps| && steps[k].BeginStep? {
        assert k > 0 ==> steps[1..][k - 1].BeginStep?;
      }
    }
  }

  lemma DeletedStays(s: State, q: nat, step: Step)
    requires Inv(s) && Enabled(s, step) && q in s.deleted
    ensures q in Apply(s, step).deleted
  {
    hide Inv;
    if step.EndStep? {
      ResetDeletedStays(s, q);
    }
  }

  lemma {:induction false} ResetDeletedStays(s: State, q: nat)
    requires Inv(s) && q in s.deleted
    ensures q in ResetAll(s).deleted
    decreases |s.batch|
  {
    if s.batch != [] {
      ResetKeeps(s);
      ResetDeletedStays(ResetFirst(s), q);
    }
  }

  /**
    Once an inserted timer is cancelled, by anyone, inside a callback or not, no batch taken out
    later contains it, and after the batch it may belong to it is deleted.
   */
  lemma CancelledNeverRunsAgain(s: State, id: ActiveTimer, steps: seq<Step>)
    requires Inv(s) && InsertedTimer(s, id) && (CancelKeeps(s, id); LegalRun(CancelInLoop(s, id), steps))
    ensures (CancelKeeps(s, id);
            var t := Run(CancelInLoop(s, id), steps);
            && (IsRunning(t, id.sequence) ==> forall k :: 0 <= k < |steps| ==> !steps[k].BeginStep?)
            && (!t.calling ==> id.sequence in t.deleted)
            && !IsActive(t, id.sequence))
  {
    CancelKeeps(s, id);
    var c := CancelInLoop(s, id);
    CancelTakesEffect(s, id);
    CancelledInRun(c, id, steps);
    var t := Run(c, steps);
    if id.sequence in t.deleted {
      DeletedNotRunning(t, id.sequence);
    } else {
      hide Run, LegalRun, Sorted, ArmInv, Less;
      assert IdOf(t.heap, id.addr) == id && id !in t.active;
    }
  }

  // ---------- the class ----------

  class TimerQueue {
    /** The memory timers are allocated in. */
    var heap: Heap
    var timers: seq<Entry>
    var activeTimers: set<ActiveTimer>
    var callingExpiredTimers: bool
    var cancelingTimers: set<ActiveTimer>
    var expired: seq<Entry>
    var now: int
    var numCreated: nat
    ghost var ran: nat
    ghost var clock: int
    ghost var armed: Option<Arm>
    ghost var deleted: set<nat>

    ghost function View(): State
      reads this
    {
      State(heap, timers, activeTimers, cancelingTimers, callingExpiredTimers, expired, ran, now,
            numCreated, clock, armed, deleted)
    }

    constructor (ghost clock: int)
      requires clock > 0
      ensures View() == Initial(clock)
    {
      heap, timers, activeTimers, cancelingTimers := map[], [], {}, {};
      callingExpiredTimers, expired, now, numCreated := false, [], 1, 0;
      ran, this.clock, armed, deleted := 0, clock, None, {};
    }

    /** The allocation in addTimer; the returned id may be cancelled before the timer is inserted. */
    method NewTimer(addr: nat, when: int, interval: nat, repeat: bool) returns (id: ActiveTimer)
      requires Inv(View()) && addr !in heap && addr < UINTPTR_MAX
      modifies this
      ensures View() == Create(old(View()), addr, when, interval, repeat) && id == IdOf(heap, addr)
    {
      numCreated := numCreated + 1;
      heap := heap[addr := Timer(numCreated, when, interval, repeat)];
      id := ActiveTimer(addr, numCreated);
    }

    ghost method ResetTimerfd(expiration: int)
      modifies this`armed
      ensures View() == Armed(old(View()), expiration)
    {
      var microseconds := expiration - clock;
      armed := Some(Arm(clock, clock + if microseconds < MIN_DELAY then MIN_DELAY else microseconds));
    }

    method Insert(addr: nat) returns (earliestChanged: bool)
      requires IndexesAgree(heap, timers, activeTimers) && addr in heap && IdOf(heap, addr) !in activeTimers
      modifies this`timers, this`activeTimers
      ensures View() == Inserting(old(View()), addr)
      ensures earliestChanged == EarliestChanged(old(View()), addr)
    {
      InsertingAgrees(View(), addr);
      var when := heap[addr].expiration;
      earliestChanged := timers == [] || when < timers[0].when;
      assert Entry(when, addr) !in timers;
      timers := Inserted(timers, Entry(when, addr));
      activeTimers := activeTimers + {ActiveTimer(addr, heap[addr].sequence)};
    }

    method AddTimerInLoop(addr: nat)
      requires Inv(View()) && Pending(View(), addr)
      modifies this
      ensures View() == AddInLoop(old(View()), addr)
    {
      var earliestChanged := Insert(addr);
      if earliestChanged {
        ResetTimerfd(heap[addr].expiration);
      }
    }

    method CancelTimerInLoop(timerId: ActiveTimer)
      requires Inv(View())
      modifies this
      ensures View() == CancelInLoop(old(View()), timerId)
    {
      if timerId in activeTimers {
        ErasingAgrees(View(), timerId.addr);
        var entry := Entry(heap[timerId.addr].expiration, timerId.addr);
        assert entry in timers;
        timers := Erased(timers, entry);
        activeTimers := activeTimers - {timerId};
        Delete(timerId.addr);
      } else if callingExpiredTimers {
        cancelingTimers := cancelingTimers + {timerId};
      }
    }

    /** handleRead up to the callbacks, at the time the clock shows. */
    method BeginRead(currentTime: int)
      requires IndexesAgree(heap, timers, activeTimers) && currentTime == clock
      modifies this
      ensures View() == Begin(old(View()))
    {
      hide IndexesAgree, IdsOf, LowerBound, Begin, ExpiredTaken;
      ghost var s := View();
      now := currentTime;
      armed := if armed.Some? && armed.value.fireAt <= clock then None else armed;
      GetExpired();
      callingExpiredTimers, cancelingTimers, ran := true, {}, 0;
      BeginIs(s, View());
    }

    method GetExpired()
      requires IndexesAgree(heap, timers, activeTimers)
      modifies this`timers, this`activeTimers, this`expired
      ensures ExpiredTaken(heap, now, old(timers), old(activeTimers), expired, timers, activeTimers)
    {
      var end := LowerBound(timers, Entry(now, UINTPTR_MAX));
      ghost var all := timers;
      expired, timers := timers[..end], timers[end..];
      assert forall e :: e in expired ==> e in all;
      hide IndexesAgree, LowerBound;
      EraseActive(expired);
    }

    /** The loop that takes the ids of the expired timers out of the second index. */
    method EraseActive(es: seq<Entry>)
      requires forall e :: e in es ==> e.addr in heap
      modifies this`activeTimers
      ensures activeTimers == old(activeTimers) - IdsOf(heap, es)
    {
      var i := 0;
      while i < |es|
        invariant i <= |es| && activeTimers == old(activeTimers) - IdsOf(heap, es[..i])
      {
        assert es[i] in es;
        activeTimers := activeTimers - {ActiveTimer(es[i].addr, heap[es[i].addr].sequence)};
        assert es[..i + 1] == es[..i] + [es[i]];
        i := i + 1;
      }
      assert es[..i] == es;
    }

    /** handleRead after the callbacks: the reset loop and the arming. */
    method EndRead()
      requires Inv(View()) && callingExpiredTimers && ran == |expired|
      modifies this
      ensures View() == Finish(ResetAll(old(View())))
    {
      Reset();
      callingExpiredTimers := false;
      if timers != [] {
        var nextExpire := timers[0].when;
        if nextExpire > 0 {
          ResetTimerfd(nextExpire);
        }
      }
    }

    method Reset()
      requires Inv(View())
      modifies this
      ensures View() == ResetAll(old(View()))
    {
      while expired != []
        invariant Inv(View()) && ResetAll(View()) == ResetAll(old(View()))
        decreases |expired|
      {
        ResetKeeps(View());
        BatchTail(View());
        ResetOne();
      }
    }

    method ResetOne()
      requires Inv(View()) && expired != []
      modifies this
      ensures View() == ResetFirst(old(View()))
    {
      var addr := expired[0].addr;
      assert expired[0] in expired;
      BatchTail(View());
      hide HeapInv, Sorted, ArmInv, Inserting, Deleting, Restarting;
      expired, ran := expired[1..], 0;
      if heap[addr].repeat && ActiveTimer(addr, heap[addr].sequence) !in cancelingTimers {
        RestartAndInsert(addr);
      } else {
        Delete(addr);
      }
    }

    method RestartAndInsert(addr: nat)
      requires HeapInv(heap, numCreated, deleted) && IndexesAgree(heap, timers, activeTimers)
      requires BatchInv(heap, activeTimers, expired) && forall e :: e in expired ==> e.addr != addr
      requires addr in heap && IdOf(heap, addr) !in activeTimers
      modifies this
      ensures View() == Inserting(Restarting(old(View()), addr), addr)
    {
      RestartingAgrees(View(), addr);
      hide IndexesAgree, BatchInv, HeapInv, Inserting, Restarting;
      Restart(addr);
      assert heap == View().heap && timers == View().timers && activeTimers == View().active;
      var _ := Insert(addr);
    }

    /** Timer::restart; the timer repeats. */
    method Restart(addr: nat)
      requires addr in heap
      modifies this`heap
      ensures View() == Restarting(old(View()), addr) && addr in heap
    {
      heap := heap[addr := heap[addr].(expiration := now + heap[addr].interval)];
    }

    method Delete(addr: nat)
      requires addr in heap
      modifies this`heap, this`deleted
      ensures View() == Deleting(old(View()), addr)
    {
      heap, deleted := heap - {addr}, deleted + {heap[addr].sequence};
    }
  }
}
