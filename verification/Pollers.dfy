/**
  The two implementations of a loop's interest set: poller/PollPoller.cc, which keeps an array of pollfds
  with back-indexes from the channels, and poller/EPollPoller.cc, which keeps the kernel's set up to date
  with epoll_ctl. Both are related to one registry of what each channel asked for.
 */
module Pollers {
  type Fd = nat

  /** What a poller has been asked: the interest of each known channel, and how often it was updated. */
  datatype Request = Request(events: nat, updates: nat)
  type Registry = map<Fd, Request>

  datatype Op = Update(fd: Fd, events: nat) | Remove(fd: Fd)

  function Ask(r: Registry, op: Op): Registry {
    match op
    case Update(fd, events) => r[fd := Request(events, if fd in r then r[fd].updates + 1 else 1)]
    case Remove(fd) => r - {fd}
  }

  /** A channel is removed once it wants no events; its only registration must not have been without events. */
  predicate Allowed(r: Registry, op: Op) {
    op.Remove? ==> op.fd in r && r[op.fd].events == 0 && r[op.fd].updates > 1
  }

  // ---------- PollPoller ----------

  datatype PollFd = PollFd(fd: int, events: nat, revents: nat)

  /** slots is pollfds_; indexes gives the index_ of every channel in channels_. */
  datatype PollSet = PollSet(slots: seq<PollFd>, indexes: map<Fd, int>)

  /** The channel a slot belongs to; an ignored slot stores -fd-1. */
  function Owner(fd: int): Fd { if fd < 0 then -fd - 1 else fd }

  function Ignored(fd: Fd): int { -1 - (fd as int) }

  predicate PointsAtOwnSlot(slots: seq<PollFd>, fd: Fd, index: int) {
    0 <= index < |slots| && Owner(slots[index].fd) == fd
  }

  predicate IndexesOk(p: PollSet) {
    && |p.indexes| == |p.slots|
    && (forall fd :: fd in p.indexes ==> PointsAtOwnSlot(p.slots, fd, p.indexes[fd]))
    && (forall i :: 0 <= i < |p.slots| ==> Owner(p.slots[i].fd) in p.indexes && p.indexes[Owner(p.slots[i].fd)] == i)
  }

  /** The updateChannel of PollPoller. */
  function PollUpdate(p: PollSet, fd: Fd, events: nat): PollSet
    requires IndexesOk(p)
  {
    if fd !in p.indexes then
      PollSet(p.slots + [PollFd(fd, events, 0)], p.indexes[fd := |p.slots|])
    else
      p.(slots := p.slots[p.indexes[fd] := PollFd(if events == 0 then Ignored(fd) else fd, events, 0)])
  }

  /** The removeChannel of PollPoller: the last slot moves into the gap. */
  function PollRemove(p: PollSet, fd: Fd): PollSet
    requires IndexesOk(p) && fd in p.indexes
  {
    var i, last := p.indexes[fd], |p.slots| - 1;
    assert PointsAtOwnSlot(p.slots, fd, i);
    if i == last then PollSet(p.slots[..last], p.indexes - {fd})
    else
      var moved := p.slots[last];
      PollSet(p.slots[i := moved][..last], (p.indexes - {fd})[Owner(moved.fd) := i])
  }

  /** The assertion of removeChannel about the slot of the channel. */
  predicate PollRemoveAssertion(p: PollSet, fd: Fd, events: nat)
    requires IndexesOk(p) && fd in p.indexes
  {
    assert PointsAtOwnSlot(p.slots, fd, p.indexes[fd]);
    var slot := p.slots[p.indexes[fd]];
    events == 0 && slot.fd == Ignored(fd) && slot.events == events
  }

  /** A slot holds its channel's interest; it is ignored exactly if an update after the first asked for no events. */
  predicate SlotOk(slot: PollFd, request: Request) {
    && slot.events == request.events
    && request.updates > 0
    && (slot.fd < 0 <==> request.events == 0 && request.updates > 1)
  }

  predicate PollRefines(p: PollSet, r: Registry) {
    && IndexesOk(p)
    && p.indexes.Keys == r.Keys
    && forall i :: 0 <= i < |p.slots| ==> SlotOk(p.slots[i], r[Owner(p.slots[i].fd)])
  }

  /** What poll(2) watches: a slot with a non-negative descriptor and some event. */
  predicate Polls(slots: seq<PollFd>, fd: Fd, events: nat) {
    exists i :: 0 <= i < |slots| && slots[i].fd == fd && slots[i].events == events
  }

  lemma PollUpdateIndexes(p: PollSet, fd: Fd, events: nat)
    requires IndexesOk(p)
    ensures IndexesOk(PollUpdate(p, fd, events))
  {
    var q := PollUpdate(p, fd, events);
    forall d | d in q.indexes ensures PointsAtOwnSlot(q.slots, d, q.indexes[d]) {
      if d in p.indexes {
        assert PointsAtOwnSlot(p.slots, d, p.indexes[d]);
      }
    }
    if fd in p.indexes {
      assert PointsAtOwnSlot(p.slots, fd, p.indexes[fd]);
    }
  }

  lemma PollUpdateRefines(p: PollSet, r: Registry, fd: Fd, events: nat)
    requires PollRefines(p, r)
    ensures PollRefines(PollUpdate(p, fd, events), Ask(r, Update(fd, events)))
  {
    PollUpdateIndexes(p, fd, events);
    var q := PollUpdate(p, fd, events);
    var s := Ask(r, Update(fd, events));
    if fd in p.indexes {
      assert PointsAtOwnSlot(p.slots, fd, p.indexes[fd]);
    }
    forall i | 0 <= i < |q.slots| ensures SlotOk(q.slots[i], s[Owner(q.slots[i].fd)]) {
      if i < |p.slots| {
        assert SlotOk(p.slots[i], r[Owner(p.slots[i].fd)]);
      }
    }
  }

  /** What is left after a removal: one slot less, and slot i holds what it held, or what the last one held. */
  lemma PollRemoveSlots(p: PollSet, fd: Fd)
    requires IndexesOk(p) && fd in p.indexes
    ensures var q, last := PollRemove(p, fd), |p.slots| - 1;
            && |q.slots| == last && 0 <= p.indexes[fd] <= last
            && q.indexes.Keys == p.indexes.Keys - {fd} && |q.indexes| == last
            && forall i :: 0 <= i < last ==> q.slots[i] == p.slots[if i == p.indexes[fd] then last else i]
  {
    var last := |p.slots| - 1;
    assert PointsAtOwnSlot(p.slots, fd, p.indexes[fd]);
    var moved := Owner(p.slots[last].fd);
    assert moved in p.indexes && p.indexes[moved] == last;
    hide IndexesOk, Owner;
    assert PollRemove(p, fd).indexes.Keys == p.indexes.Keys - {fd};
    assert |p.indexes.Keys - {fd}| == |p.indexes.Keys| - 1;
  }

  lemma PollRemovePoints(p: PollSet, fd: Fd, d: Fd)
    requires IndexesOk(p) && fd in p.indexes && d in PollRemove(p, fd).indexes
    ensures PointsAtOwnSlot(PollRemove(p, fd).slots, d, PollRemove(p, fd).indexes[d])
  {
    assert PointsAtOwnSlot(p.slots, fd, p.indexes[fd]);
    assert d in p.indexes && d != fd by { PollRemoveSlots(p, fd); }
    assert PointsAtOwnSlot(p.slots, d, p.indexes[d]);
    var moved := Owner(p.slots[|p.slots| - 1].fd);
    assert p.indexes[moved] == |p.slots| - 1;
    hide IndexesOk;
  }

  lemma PollRemoveOwner(p: PollSet, fd: Fd, i: nat)
    requires IndexesOk(p) && fd in p.indexes && i < |PollRemove(p, fd).slots|
    ensures var q := PollRemove(p, fd);
            Owner(q.slots[i].fd) in q.indexes && q.indexes[Owner(q.slots[i].fd)] == i
  {
    PollRemoveSlots(p, fd);
    assert PointsAtOwnSlot(p.slots, fd, p.indexes[fd]);
    var last := |p.slots| - 1;
    var j := if i == p.indexes[fd] then last else i;
    assert Owner(p.slots[j].fd) in p.indexes && p.indexes[Owner(p.slots[j].fd)] == j;
    assert Owner(p.slots[last].fd) in p.indexes && p.indexes[Owner(p.slots[last].fd)] == last;
    hide IndexesOk;
  }

  /** Swap with last keeps every back-index right. */
  lemma PollRemoveIndexes(p: PollSet, fd: Fd)
    requires IndexesOk(p) && fd in p.indexes
    ensures IndexesOk(PollRemove(p, fd))
    ensures PollRemove(p, fd).indexes.Keys == p.indexes.Keys - {fd}
    ensures forall i :: 0 <= i < |p.slots| - 1 ==>
              PollRemove(p, fd).slots[i] == p.slots[if i == p.indexes[fd] then |p.slots| - 1 else i]
  {
    hide PollRemove, PointsAtOwnSlot, Owner;
    PollRemoveSlots(p, fd);
    var q := PollRemove(p, fd);
    forall d | d in q.indexes ensures PointsAtOwnSlot(q.slots, d, q.indexes[d]) {
      PollRemovePoints(p, fd, d);
    }
    forall i | 0 <= i < |q.slots|
      ensures Owner(q.slots[i].fd) in q.indexes && q.indexes[Owner(q.slots[i].fd)] == i
    {
      PollRemoveOwner(p, fd, i);
    }
  }

  lemma PollRemoveKeepsIndexes(p: PollSet, fd: Fd)
    requires IndexesOk(p) && fd in p.indexes
    ensures IndexesOk(PollRemove(p, fd))
    ensures var last := |p.slots| - 1;
            && 0 <= p.indexes[fd] <= last && Owner(p.slots[last].fd) in p.indexes
            && (p.indexes[fd] < last ==> Owner(p.slots[last].fd) != fd)
  {
    PollRemoveIndexes(p, fd);
    assert PointsAtOwnSlot(p.slots, fd, p.indexes[fd]);
  }

  lemma PollRemoveIs(p: PollSet, fd: Fd, q: PollSet)
    requires IndexesOk(p) && fd in p.indexes && 0 <= p.indexes[fd] < |p.slots|
    requires var idx, last, indexes := p.indexes[fd], |p.slots| - 1, p.indexes - {fd};
             && q.slots == (if idx == last then p.slots[..last] else p.slots[idx := p.slots[last]][..last])
             && q.indexes == (if idx == last then indexes else indexes[Owner(p.slots[last].fd) := idx])
    ensures q == PollRemove(p, fd) && IndexesOk(q)
  {
    PollRemoveIndexes(p, fd);
    hide IndexesOk;
  }

  lemma PollRemoveRefines(p: PollSet, r: Registry, fd: Fd)
    requires PollRefines(p, r) && fd in r
    ensures PollRefines(PollRemove(p, fd), Ask(r, Remove(fd)))
  {
    hide PollRemove, IndexesOk, SlotOk, Owner;
    PollRemoveIndexes(p, fd);
    PollRemoveSlots(p, fd);
    var q := PollRemove(p, fd);
    var s := Ask(r, Remove(fd));
    forall i | 0 <= i < |q.slots|
      ensures Owner(q.slots[i].fd) in s && SlotOk(q.slots[i], s[Owner(q.slots[i].fd)])
    {
      PollRemoveOwner(p, fd, i);
      var j := if i == p.indexes[fd] then |p.slots| - 1 else i;
      assert q.slots[i] == p.slots[j];
      assert SlotOk(p.slots[j], r[Owner(p.slots[j].fd)]);
    }
  }

  /** The assertion holds exactly for a channel that wants nothing and was updated more than once. */
  lemma PollRemoveAssertionExactly(p: PollSet, r: Registry, fd: Fd)
    requires PollRefines(p, r) && fd in r
    ensures PollRemoveAssertion(p, fd, r[fd].events) <==> Allowed(r, Remove(fd))
  {
    assert PointsAtOwnSlot(p.slots, fd, p.indexes[fd]);
    assert SlotOk(p.slots[p.indexes[fd]], r[fd]);
  }

  /** poll(2) watches exactly what was asked. */
  lemma PollsWhatWasAsked(p: PollSet, r: Registry, fd: Fd, events: nat)
    requires PollRefines(p, r) && events != 0
    ensures Polls(p.slots, fd, events) <==> fd in r && r[fd].events == events
  {
    if fd in r {
      assert PointsAtOwnSlot(p.slots, fd, p.indexes[fd]);
      assert SlotOk(p.slots[p.indexes[fd]], r[fd]);
    }
    forall i | 0 <= i < |p.slots| && p.slots[i].fd == fd ensures fd in r && p.slots[i].events == r[fd].events {
      assert SlotOk(p.slots[i], r[Owner(p.slots[i].fd)]);
    }
  }

  // ---------- EPollPoller ----------

  const NEW: int := -1
  const ADDED: int := 1
  const DELETED: int := 2

  datatype Ctl = Add | Mod | Del

  /** indexes: index_ of every channel in channels_; kernel: the epoll set; failed: some epoll_ctl was refused. */
  datatype EpollSet = EpollSet(indexes: map<Fd, int>, kernel: map<Fd, nat>, failed: bool)

  /** epoll_ctl: adding what is there, or changing or deleting what is not, is refused. */
  function Controlled(e: EpollSet, ctl: Ctl, fd: Fd, events: nat): EpollSet {
    match ctl
    case Add => if fd in e.kernel then e.(failed := true) else e.(kernel := e.kernel[fd := events])
    case Mod => if fd in e.kernel then e.(kernel := e.kernel[fd := events]) else e.(failed := true)
    case Del => if fd in e.kernel then e.(kernel := e.kernel - {fd}) else e.(failed := true)
  }

  /** The updateChannel of EPollPoller. */
  function EpollUpdate(e: EpollSet, fd: Fd, events: nat): EpollSet {
    if fd !in e.indexes || e.indexes[fd] == DELETED then
      Controlled(e.(indexes := e.indexes[fd := ADDED]), Add, fd, events)
    else if events == 0 then
      var f := Controlled(e, Del, fd, events);
      f.(indexes := f.indexes[fd := DELETED])
    else
      Controlled(e, Mod, fd, events)
  }

  /** The removeChannel of EPollPoller. */
  function EpollRemove(e: EpollSet, fd: Fd): EpollSet
    requires fd in e.indexes
  {
    var f := e.(indexes := e.indexes - {fd});
    if e.indexes[fd] == ADDED then Controlled(f, Del, fd, 0) else f
  }

  /** A channel is marked as added exactly if the kernel holds it, with the interest asked for. */
  predicate EpollEntryOk(e: EpollSet, fd: Fd, request: Request)
    requires fd in e.indexes
  {
    && (e.indexes[fd] == ADDED || e.indexes[fd] == DELETED)
    && (e.indexes[fd] == ADDED <==> fd in e.kernel)
    && (if fd in e.kernel then e.kernel[fd] == request.events else request.events == 0)
  }

  predicate EpollRefines(e: EpollSet, r: Registry) {
    && !e.failed
    && e.indexes.Keys == r.Keys
    && e.kernel.Keys <= r.Keys
    && forall fd :: fd in r ==> EpollEntryOk(e, fd, r[fd])
  }

  predicate EpollWatches(kernel: map<Fd, nat>, fd: Fd, events: nat) { fd in kernel && kernel[fd] == events }

  lemma EpollUpdateRefines(e: EpollSet, r: Registry, fd: Fd, events: nat)
    requires EpollRefines(e, r)
    ensures EpollRefines(EpollUpdate(e, fd, events), Ask(r, Update(fd, events)))
  {
    var f := EpollUpdate(e, fd, events);
    var s := Ask(r, Update(fd, events));
    if fd in r {
      assert EpollEntryOk(e, fd, r[fd]);
    }
    forall d | d in s ensures EpollEntryOk(f, d, s[d]) {
      if d != fd {
        assert EpollEntryOk(e, d, r[d]);
      }
    }
  }

  lemma EpollRemoveRefines(e: EpollSet, r: Registry, fd: Fd)
    requires EpollRefines(e, r) && fd in r
    ensures EpollRefines(EpollRemove(e, fd), Ask(r, Remove(fd)))
  {
    var f := EpollRemove(e, fd);
    var s := Ask(r, Remove(fd));
    assert EpollEntryOk(e, fd, r[fd]);
    forall d | d in s ensures EpollEntryOk(f, d, s[d]) {
      assert EpollEntryOk(e, d, r[d]);
    }
  }

  // ---------- both, over any legal sequence of operations ----------

  datatype Both = Both(asked: Registry, poll: PollSet, epoll: EpollSet)

  const EMPTY: Both := Both(map[], PollSet([], map[]), EpollSet(map[], map[], false))

  predicate Agree(b: Both) { PollRefines(b.poll, b.asked) && EpollRefines(b.epoll, b.asked) }

  function Apply(b: Both, op: Op): (b': Both)
    requires Agree(b) && Allowed(b.asked, op)
    ensures Agree(b')
  {
    hide PollUpdate, PollRemove, EpollUpdate, EpollRemove, IndexesOk, SlotOk, EpollEntryOk;
    match op
    case Update(fd, events) =>
      PollUpdateRefines(b.poll, b.asked, fd, events);
      EpollUpdateRefines(b.epoll, b.asked, fd, events);
      Both(Ask(b.asked, op), PollUpdate(b.poll, fd, events), EpollUpdate(b.epoll, fd, events))
    case Remove(fd) =>
      PollRemoveRefines(b.poll, b.asked, fd);
      EpollRemoveRefines(b.epoll, b.asked, fd);
      Both(Ask(b.asked, op), PollRemove(b.poll, fd), EpollRemove(b.epoll, fd))
  }

  predicate AllAllowed(b: Both, ops: seq<Op>)
    requires Agree(b)
    decreases |ops|
  {
    ops != [] ==> Allowed(b.asked, ops[0]) && AllAllowed(Apply(b, ops[0]), ops[1..])
  }

  function Run(b: Both, ops: seq<Op>): (b': Both)
    requires Agree(b) && AllAllowed(b, ops)
    ensures Agree(b')
    decreases |ops|
  {
    if ops == [] then b else Run(Apply(b, ops[0]), ops[1..])
  }

  /**
    After any legal sequence of operations every index of the poll array points at its own slot, no
    epoll_ctl has been refused, and both pollers watch the same events on the same descriptors.
   */
  lemma SameInterest(ops: seq<Op>, fd: Fd, events: nat)
    requires AllAllowed(EMPTY, ops) && events != 0
    ensures var b := Run(EMPTY, ops);
            && IndexesOk(b.poll) && !b.epoll.failed
            && (Polls(b.poll.slots, fd, events) <==> fd in b.asked && b.asked[fd].events == events)
            && (Polls(b.poll.slots, fd, events) <==> EpollWatches(b.epoll.kernel, fd, events))
  {
    var b := Run(EMPTY, ops);
    PollsWhatWasAsked(b.poll, b.asked, fd, events);
    if fd in b.asked {
      assert EpollEntryOk(b.epoll, fd, b.asked[fd]);
    }
  }

  /** Such a run: one registration without events, after which the assertion of removeChannel fails. */
  lemma LoneNoneRegistrationFails(fd: Fd)
    ensures AllAllowed(EMPTY, [Update(fd, 0)])
    ensures var b := Run(EMPTY, [Update(fd, 0)]);
            fd in b.poll.indexes && b.asked[fd].events == 0 && !PollRemoveAssertion(b.poll, fd, 0)
  {
    var b := Apply(EMPTY, Update(fd, 0));
    assert [Update(fd, 0)][1..] == [];
    assert AllAllowed(b, []) && Run(b, []) == b;
    PollRemoveAssertionExactly(b.poll, b.asked, fd);
  }

  // ---------- the code ----------

  class Channel {
    const fd: Fd
    var events: nat
    var revents: nat
    var index: int

    constructor (fd: Fd)
      ensures this.fd == fd && events == 0 && revents == 0 && index == NEW
    {
      this.fd := fd;
      events, revents, index := 0, 0, NEW;
    }

    predicate IsNoneEvent()
      reads this
    {
      events == 0
    }
  }

  /** The part of Poller both share: a channel is filed under its own descriptor. */
  ghost predicate Filed(channels: map<Fd, Channel>) {
    forall fd :: fd in channels ==> channels[fd].fd == fd
  }

  ghost function IndexesOf(channels: map<Fd, Channel>): (r: map<Fd, int>)
    reads channels.Values
    ensures r.Keys == channels.Keys
  {
    map fd | fd in channels :: channels[fd].index
  }

  /** How updateChannel must be called: with a channel not yet known, or with the one filed. */
  ghost predicate MayUpdate(channels: map<Fd, Channel>, channel: Channel)
    reads channel
  {
    if channel.index < 0 then channel.fd !in channels else channel.fd in channels && channels[channel.fd] == channel
  }

  /** The channels of the first numEvents slots with events, in slot order. */
  function ActiveFds(slots: seq<PollFd>, numEvents: nat): seq<Fd> {
    if slots == [] || numEvents == 0 then []
    else if slots[0].revents > 0 then [Owner(slots[0].fd)] + ActiveFds(slots[1..], numEvents - 1)
    else ActiveFds(slots[1..], numEvents)
  }

  /** poll(2) reports how many slots have events, and none on an ignored slot. */
  function CountActive(slots: seq<PollFd>): nat {
    if slots == [] then 0 else (if slots[0].revents > 0 then 1 else 0) + CountActive(slots[1..])
  }

  /** With the count that poll(2) returns, exactly the descriptors with events are found. */
  lemma {:induction false} ActiveFdsComplete(slots: seq<PollFd>, fd: Fd)
    requires forall i :: 0 <= i < |slots| && slots[i].revents > 0 ==> slots[i].fd >= 0
    ensures fd in ActiveFds(slots, CountActive(slots)) <==>
            exists i :: 0 <= i < |slots| && slots[i].revents > 0 && slots[i].fd == fd
  {
    if slots != [] {
      ActiveFdsComplete(slots[1..], fd);
      if i :| 0 <= i < |slots| && slots[i].revents > 0 && slots[i].fd == fd {
        assert i > 0 ==> slots[1..][i - 1] == slots[i];
      }
    }
  }

  method SetIndex(ghost channels: map<Fd, Channel>, channel: Channel, idx: int)
    requires Filed(channels) && channel.fd in channels && channels[channel.fd] == channel
    modifies channel`index
    ensures IndexesOf(channels) == old(IndexesOf(channels))[channel.fd := idx] && channel.index == idx
  {
    channel.index := idx;
  }

  lemma ActiveStep(slots: seq<PollFd>, i: nat, left: nat)
    requires i < |slots| && left > 0
    ensures ActiveFds(slots[i..], left) ==
            if slots[i].revents > 0 then [Owner(slots[i].fd)] + ActiveFds(slots[i + 1..], left - 1)
            else ActiveFds(slots[i + 1..], left)
  {
    assert slots[i..][1..] == slots[i + 1..];
  }

  lemma Appends(before: seq<Fd>, fd: Fd, after: seq<Fd>)
    ensures before + ([fd] + after) == before + [fd] + after
  {}

  lemma SlotInUse(p: PollSet, i: nat)
    requires IndexesOk(p) && i < |p.slots|
    ensures Owner(p.slots[i].fd) in p.indexes && (p.slots[i].fd >= 0 ==> p.slots[i].fd == Owner(p.slots[i].fd))
  {}

  ghost function ReventsOf(channels: map<Fd, Channel>): (r: map<Fd, nat>)
    reads channels.Values
    ensures r.Keys == channels.Keys
  {
    map fd | fd in channels :: channels[fd].revents
  }

  /** Each channel found has the revents of its own slot; those of the other channels stay. */
  ghost predicate Told(p: PollSet, found: seq<Fd>, before: map<Fd, nat>, after: map<Fd, nat>) {
    && after.Keys == before.Keys
    && (forall fd :: fd in after && fd in found ==>
          fd in p.indexes && 0 <= p.indexes[fd] < |p.slots| && after[fd] == p.slots[p.indexes[fd]].revents)
    && (forall fd :: fd in after && fd !in found ==> after[fd] == before[fd])
  }

  lemma ToldNothing(p: PollSet, before: map<Fd, nat>)
    ensures Told(p, [], before, before)
  {}

  lemma ToldNext(p: PollSet, found: seq<Fd>, before: map<Fd, nat>, after: map<Fd, nat>, i: nat)
    requires IndexesOk(p) && Told(p, found, before, after) && i < |p.slots| && p.slots[i].fd >= 0
    requires p.slots[i].fd in after
    ensures Told(p, found + [p.slots[i].fd], before, after[p.slots[i].fd := p.slots[i].revents])
  {}

  class PollPoller {
    var pollfds: seq<PollFd>
    var channels: map<Fd, Channel>

    ghost function View(): PollSet
      reads this, channels.Values
    {
      PollSet(pollfds, IndexesOf(channels))
    }

    ghost predicate Valid()
      reads this, channels.Values
    {
      Filed(channels) && IndexesOk(View())
    }

    constructor ()
      ensures Valid() && View() == EMPTY.poll
    {
      pollfds, channels := [], map[];
    }

    method UpdateChannel(channel: Channel)
      requires Valid() && MayUpdate(channels, channel)
      modifies this, channel`index
      ensures Valid() && View() == PollUpdate(old(View()), channel.fd, channel.events)
      ensures channels == old(channels)[channel.fd := channel]
    {
      PollUpdateIndexes(View(), channel.fd, channel.events);
      ghost var before := View();
      assert channel.fd in channels ==> PointsAtOwnSlot(pollfds, channel.fd, before.indexes[channel.fd]);
      hide IndexesOk, IndexesOf, Owner;
      if channel.index < 0 {
        AddChannel(channel);
      } else {
        pollfds := pollfds[channel.index :=
          PollFd(if channel.IsNoneEvent() then Ignored(channel.fd) else channel.fd, channel.events, 0)];
        assert channels == channels[channel.fd := channel];
      }
    }

    /** A new channel gets a slot at the end. */
    method AddChannel(channel: Channel)
      requires Filed(channels) && channel.fd !in channels
      modifies this, channel`index
      ensures channels == old(channels)[channel.fd := channel] && Filed(channels)
      ensures pollfds == old(pollfds) + [PollFd(channel.fd, channel.events, 0)]
      ensures IndexesOf(channels) == old(IndexesOf(channels))[channel.fd := |old(pollfds)|]
    {
      pollfds := pollfds + [PollFd(channel.fd, channel.events, 0)];
      channel.index := |pollfds| - 1;
      channels := channels[channel.fd := channel];
    }

    method RemoveChannel(channel: Channel)
      requires Valid() && channel.fd in channels && channels[channel.fd] == channel
      requires PollRemoveAssertion(View(), channel.fd, channel.events)
      modifies this, channels.Values
      ensures Valid() && View() == PollRemove(old(View()), channel.fd)
      ensures channels == old(channels) - {channel.fd}
    {
      hide IndexesOk, PollRemoveAssertion, PollRemove;
      ghost var before := View();
      PollRemoveKeepsIndexes(before, channel.fd);
      assert channel.index == before.indexes[channel.fd];
      hide IndexesOf;
      CloseGap(channel);
      PollRemoveIs(before, channel.fd, View());
    }

    /** Without the channel's slot the array stays gapless. */
    method CloseGap(channel: Channel)
      requires Filed(channels) && channel.fd in channels && channels[channel.fd] == channel
      requires 0 <= channel.index < |pollfds| && Owner(pollfds[|pollfds| - 1].fd) in channels
      requires channel.index < |pollfds| - 1 ==> Owner(pollfds[|pollfds| - 1].fd) != channel.fd
      modifies this, channels.Values
      ensures var idx, last, indexes := old(channel.index), old(|pollfds|) - 1, old(IndexesOf(channels)) - {channel.fd};
              && pollfds == (if idx == last then old(pollfds)[..last]
                             else old(pollfds)[idx := old(pollfds)[last]][..last])
              && IndexesOf(channels) == (if idx == last then indexes else indexes[Owner(old(pollfds)[last].fd) := idx])
      ensures channels == old(channels) - {channel.fd} && Filed(channels)
    {
      hide IndexesOf, Owner;
      if channel.index == |pollfds| - 1 {
        DropChannel(channel);
        pollfds := pollfds[..|pollfds| - 1];
      } else {
        MoveLastInto(channel);
      }
    }

    /** The last slot takes the place of the channel's. */
    method MoveLastInto(channel: Channel)
      requires Filed(channels) && channel.fd in channels && channels[channel.fd] == channel
      requires 0 <= channel.index < |pollfds| - 1 && Owner(pollfds[|pollfds| - 1].fd) in channels
      requires Owner(pollfds[|pollfds| - 1].fd) != channel.fd
      modifies this, channels.Values
      ensures var last := old(|pollfds|) - 1;
              && pollfds == old(pollfds)[old(channel.index) := old(pollfds)[last]][..last]
              && IndexesOf(channels)
                 == (old(IndexesOf(channels)) - {channel.fd})[Owner(old(pollfds)[last].fd) := old(channel.index)]
      ensures channels == old(channels) - {channel.fd} && Filed(channels)
    {
      hide IndexesOk, IndexesOf;
      var idx, last := channel.index, |pollfds| - 1;
      var channelAtEnd := pollfds[last].fd;
      if channelAtEnd < 0 {
        channelAtEnd := -channelAtEnd - 1;
      }
      DropChannel(channel);
      SetIndex(channels, channels[channelAtEnd], idx);
      pollfds := pollfds[idx := pollfds[last]][..last];
    }

    method DropChannel(channel: Channel)
      requires Filed(channels)
      modifies this`channels
      ensures channels == old(channels) - {channel.fd} && Filed(channels)
      ensures IndexesOf(channels) == old(IndexesOf(channels)) - {channel.fd}
    {
      channels := channels - {channel.fd};
    }

    /** Channel::update after its events have been set. */
    method SetEvents(channel: Channel, events: nat)
      requires Valid() && MayUpdate(channels, channel)
      modifies this, channel
      ensures Valid() && View() == PollUpdate(old(View()), channel.fd, events) && channel.events == events
      ensures channels == old(channels)[channel.fd := channel]
    {
      channel.events := events;
      assert IndexesOf(channels) == old(IndexesOf(channels));
      UpdateChannel(channel);
    }

    /** After poll(2) has set the revents. The loop's lookup never fails: every slot in use has its channel. */
    method FillActiveChannels(numEvents: nat) returns (activeChannels: seq<Channel>)
      requires Valid()
      requires forall i :: 0 <= i < |pollfds| && pollfds[i].revents > 0 ==> pollfds[i].fd >= 0
      modifies channels.Values
      ensures pollfds == old(pollfds) && channels == old(channels) && IndexesOf(channels) == old(IndexesOf(channels))
      ensures |activeChannels| == |ActiveFds(pollfds, numEvents)|
      ensures forall k :: 0 <= k < |activeChannels| ==>
                var fd := ActiveFds(pollfds, numEvents)[k]; fd in channels && activeChannels[k] == channels[fd]
      ensures Told(View(), ActiveFds(pollfds, numEvents), old(ReventsOf(channels)), ReventsOf(channels))
    {
      hide IndexesOf, ReventsOf, IndexesOk, Told, Owner;
      activeChannels := [];
      var i, left := 0, numEvents;
      ghost var found: seq<Fd>, before, p := [], ReventsOf(channels), View();
      assert pollfds[0..] == pollfds;
      ToldNothing(p, before);
      while i < |pollfds| && left > 0
        invariant 0 <= i <= |pollfds| && |activeChannels| == |found|
        invariant found + ActiveFds(pollfds[i..], left) == ActiveFds(pollfds, numEvents)
        invariant pollfds == old(pollfds) && channels == old(channels)
        invariant IndexesOf(channels) == old(IndexesOf(channels))
        invariant forall k :: 0 <= k < |activeChannels| ==>
                    found[k] in channels && activeChannels[k] == channels[found[k]]
        invariant Told(p, found, before, ReventsOf(channels))
      {
        var pfd := pollfds[i];
        ActiveStep(pollfds, i, left);
        if pfd.revents > 0 {
          left := left - 1;
          SlotInUse(p, i);
          ToldNext(p, found, before, ReventsOf(channels), i);
          hide ActiveFds;
          SetRevents(channels[pfd.fd], pfd.revents);
          Appends(found, pfd.fd, ActiveFds(pollfds[i + 1..], left));
          activeChannels := activeChannels + [channels[pfd.fd]];
          found := found + [pfd.fd];
        }
        i := i + 1;
      }
      assert found == ActiveFds(pollfds, numEvents);
    }

    method SetRevents(channel: Channel, revents: nat)
      requires Filed(channels) && channel.fd in channels && channels[channel.fd] == channel
      modifies channel`revents
      ensures IndexesOf(channels) == old(IndexesOf(channels))
      ensures ReventsOf(channels) == old(ReventsOf(channels))[channel.fd := revents]
    {
      channel.revents := revents;
    }
  }

  class EPollPoller {
    var channels: map<Fd, Channel>
    var kernel: map<Fd, nat>   // what the kernel holds for epollfd_
    var failed: bool           // some epoll_ctl was refused

    ghost function View(): EpollSet
      reads this, channels.Values
    {
      EpollSet(IndexesOf(channels), kernel, failed)
    }

    constructor ()
      ensures View() == EMPTY.epoll && Filed(channels)
    {
      channels, kernel, failed := map[], map[], false;
    }

    method UpdateChannel(channel: Channel)
      requires Filed(channels) && MayUpdate(channels, channel)
      requires channel.index == NEW || channel.index == ADDED || channel.index == DELETED
      modifies this, channel`index
      ensures Filed(channels) && View() == EpollUpdate(old(View()), channel.fd, channel.events)
      ensures channels == old(channels)[channel.fd := channel]
    {
      assert channel.index >= 0 ==>
          channels == channels[channel.fd := channel] && IndexesOf(channels)[channel.fd] == channel.index;
      hide IndexesOf, Filed;
      var index := channel.index;
      if index == NEW || index == DELETED {
        MarkAdded(channel);
        Control(Add, channel);
      } else if channel.IsNoneEvent() {
        Control(Del, channel);
        SetIndex(channels, channel, DELETED);
      } else {
        Control(Mod, channel);
      }
    }

    /** A channel the kernel does not hold: filed if it is new, and marked as added. */
    method MarkAdded(channel: Channel)
      requires Filed(channels) && MayUpdate(channels, channel)
      modifies this`channels, channel`index
      ensures channels == old(channels)[channel.fd := channel] && Filed(channels)
      ensures IndexesOf(channels) == old(IndexesOf(channels))[channel.fd := ADDED]
    {
      ghost var indexes := IndexesOf(channels);
      if channel.index < 0 {
        channels := channels[channel.fd := channel];
      } else {
        assert channels == channels[channel.fd := channel];
      }
      channel.index := ADDED;
      assert IndexesOf(channels) == indexes[channel.fd := ADDED];
    }

    method RemoveChannel(channel: Channel)
      requires Filed(channels) && channel.fd in channels && channels[channel.fd] == channel && channel.IsNoneEvent()
      requires channel.index == ADDED || channel.index == DELETED
      modifies this, channel`index
      ensures Filed(channels) && View() == EpollRemove(old(View()), channel.fd)
      ensures channels == old(channels) - {channel.fd} && channel.index == NEW
    {
      ghost var indexes := IndexesOf(channels);
      channels := channels - {channel.fd};
      assert IndexesOf(channels) == indexes - {channel.fd};
      if channel.index == ADDED {
        Control(Del, channel);
      }
      channel.index := NEW;
      assert IndexesOf(channels) == indexes - {channel.fd};
    }

    /** update: one epoll_ctl call. */
    method Control(ctl: Ctl, channel: Channel)
      modifies this`kernel, this`failed
      ensures EpollSet(map[], kernel, failed) ==
              Controlled(EpollSet(map[], old(kernel), old(failed)), ctl, channel.fd, channel.events)
    {
      var e := Controlled(EpollSet(map[], kernel, failed), ctl, channel.fd, channel.events);
      kernel, failed := e.kernel, e.failed;
    }
  }
}
