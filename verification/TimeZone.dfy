/**
  Zone arithmetic of muduo/base/TimeZone.cc: UTC fields, the transition search, and local time.
  gmtime and timegm are taken to be ToUtcTime and FromUtcTime.
 */
module TimeZone {
  import opened Date

  // ---------- UTC ----------

  const SECONDS_PER_DAY := 86400

  datatype Tm = Tm(date: YearMonthDay, hour: int, min: int, sec: int, isDst: bool)

  function ToUtcTime(secondsSinceEpoch: int): Tm {
    var seconds := Mod(secondsSinceEpoch, SECONDS_PER_DAY);
    var days := Div(secondsSinceEpoch, SECONDS_PER_DAY);
    var (s, d) := if seconds < 0 then (seconds + SECONDS_PER_DAY, days - 1) else (seconds, days);
    var minutes := s / 60;
    Tm(GetYearMonthDay(d + JULIAN_DAY_OF_1970_01_01), minutes / 60, minutes % 60, s % 60, false)
  }

  function FromUtcTime(utc: Tm): int {
    var secondsInDay := utc.hour * 3600 + utc.min * 60 + utc.sec;
    var days := ToJulianDay(utc.date) - JULIAN_DAY_OF_1970_01_01;
    days * SECONDS_PER_DAY + secondsInDay
  }

  /** The first second whose Julian day is -32044, the start of -4800-03-01. */
  const FIRST_SECOND: int := (FIRST_JULIAN_DAY - 2440588) * 86400

  predicate IsClockTime(t: Tm) {
    0 <= t.hour <= 23 && 0 <= t.min <= 59 && 0 <= t.sec <= 59
  }

  lemma Epoch()
    ensures JULIAN_DAY_OF_1970_01_01 == 2440588
  {}

  /** The truncated quotient and remainder, corrected, are the floor quotient and remainder. */
  lemma UtcDay(t: int)
    ensures var s := t % 86400;
            ToUtcTime(t) == Tm(GetYearMonthDay(t / 86400 + 2440588), s / 3600, s / 60 % 60, s % 60, false)
    ensures IsClockTime(ToUtcTime(t))
  {
    Epoch();
    hide GetYearMonthDay;
    var s := t % 86400;
    assert Div(t, 86400) == if t < 0 && s != 0 then t / 86400 + 1 else t / 86400;
  }

  lemma DstFlagIgnored(utc: Tm, isDst: bool)
    ensures FromUtcTime(utc.(isDst := isDst)) == FromUtcTime(utc)
  {}

  /** Seconds before the epoch included. */
  lemma UtcRoundTrip(t: int)
    requires t >= FIRST_SECOND
    ensures InScope(ToUtcTime(t).date) && IsClockTime(ToUtcTime(t))
    ensures FromUtcTime(ToUtcTime(t)) == t
  {
    hide GetYearMonthDay, JulianDayNumber, ToJulianDay, ToUtcTime, InScope, IsClockTime, Div, Mod;
    Epoch();
    UtcDay(t);
    assert t / 86400 + 2440588 >= FIRST_JULIAN_DAY by { DaysGrow(FIRST_SECOND, t); }
    DayRoundTrip(t / 86400 + 2440588);
    ClockSplits(t % 86400);
    assert t == t / 86400 * 86400 + t % 86400;
  }

  lemma DaysGrow(t: int, t': int)
    requires t <= t'
    ensures t / 86400 <= t' / 86400
  {}

  lemma ClockSplits(s: nat)
    ensures s / 3600 * 3600 + s / 60 % 60 * 60 + s % 60 == s
  {
    assert s / 60 / 60 == s / 3600;
  }

  lemma UtcFieldsRoundTrip(utc: Tm)
    requires InScope(utc.date) && IsClockTime(utc) && !utc.isDst
    ensures FromUtcTime(utc) >= FIRST_SECOND
    ensures ToUtcTime(FromUtcTime(utc)) == utc
  {
    hide GetYearMonthDay, JulianDayNumber, ToUtcTime;
    Epoch();
    DateRoundTrip(utc.date);
    var t := FromUtcTime(utc);
    var s := utc.hour * 3600 + utc.min * 60 + utc.sec;
    assert t / 86400 == ToJulianDay(utc.date) - 2440588 && t % 86400 == s;
    UtcDay(t);
  }

  // ---------- zones ----------

  datatype Transition = Transition(gmt: int, local: int, index: int)
  datatype LocalType = LocalType(gmtOffset: int, isDst: bool)
  datatype Zone = Zone(transitions: seq<Transition>, types: seq<LocalType>)

  /** The field the comparator looks at. */
  function Key(t: Transition, compareGmt: bool): int {
    if compareGmt then t.gmt else t.local
  }

  predicate Sorted(ts: seq<Transition>, compareGmt: bool) {
    forall i, j :: 0 <= i < j < |ts| ==> Key(ts[i], compareGmt) < Key(ts[j], compareGmt)
  }

  /** What the zone file reader builds, for a file whose transition times are increasing. */
  predicate IsZone(z: Zone) {
    && |z.types| > 0
    && (forall i :: 0 <= i < |z.transitions| ==>
          && 0 <= z.transitions[i].index < |z.types|
          && z.transitions[i].local == z.transitions[i].gmt + z.types[z.transitions[i].index].gmtOffset
          && FitsInt32(z.transitions[i].gmt))
    && (forall k :: 0 <= k < |z.types| ==> FitsInt32(z.types[k].gmtOffset))
  }

  /** std::lower_bound: the first element not less than the sentry. */
  function LowerBound(ts: seq<Transition>, sentry: int, compareGmt: bool, first: nat, last: nat): (r: nat)
    requires first <= last <= |ts| && Sorted(ts, compareGmt)
    requires forall i :: 0 <= i < first ==> Key(ts[i], compareGmt) < sentry
    requires forall i :: last <= i < |ts| ==> sentry <= Key(ts[i], compareGmt)
    ensures r <= |ts|
    ensures forall i :: 0 <= i < r ==> Key(ts[i], compareGmt) < sentry
    ensures forall i :: r <= i < |ts| ==> sentry <= Key(ts[i], compareGmt)
    decreases last - first
  {
    if first == last then first
    else
      var mid := first + (last - first) / 2;
      if Key(ts[mid], compareGmt) < sentry
      then LowerBound(ts, sentry, compareGmt, mid + 1, last)
      else LowerBound(ts, sentry, compareGmt, first, mid)
  }

  function FindLocaltime(z: Zone, sentry: int, compareGmt: bool): LocalType
    requires IsZone(z) && Sorted(z.transitions, compareGmt)
  {
    var ts := z.transitions;
    if |ts| == 0 || sentry < Key(ts[0], compareGmt) then z.types[0]
    else
      var i := LowerBound(ts, sentry, compareGmt, 0, |ts|);
      if i < |ts| then
        if sentry == Key(ts[i], compareGmt) then z.types[ts[i].index]
        else z.types[ts[i - 1].index]
      else z.types[ts[|ts| - 1].index]
  }

  function ToLocalTime(z: Zone, seconds: int): Tm
    requires IsZone(z) && Sorted(z.transitions, true)
  {
    var local := FindLocaltime(z, seconds, true);
    ToUtcTime(seconds + local.gmtOffset).(isDst := local.isDst)
  }

  function FromLocalTime(z: Zone, localTm: Tm): int
    requires IsZone(z) && Sorted(z.transitions, true) && Sorted(z.transitions, false)
  {
    var seconds := FromUtcTime(localTm);
    var local := FindLocaltime(z, seconds, false);
    var tryTm := ToLocalTime(z, seconds - local.gmtOffset);
    if localTm.isDst && !tryTm.isDst && tryTm.hour == localTm.hour && tryTm.min == localTm.min
    then seconds - 3600 - local.gmtOffset
    else seconds - local.gmtOffset
  }

  // ---------- periods: the reference for the search ----------

  /**
    Period k runs from transition k - 1 (inclusive) to transition k (exclusive); period 0 comes before
    the first transition and uses the first local type.
   */
  function PeriodType(z: Zone, k: nat): LocalType
    requires IsZone(z) && k <= |z.transitions|
  {
    if k == 0 then z.types[0] else z.types[z.transitions[k - 1].index]
  }

  predicate InPeriod(z: Zone, t: int, k: nat, compareGmt: bool)
    requires k <= |z.transitions|
  {
    && (k > 0 ==> Key(z.transitions[k - 1], compareGmt) <= t)
    && (k < |z.transitions| ==> t < Key(z.transitions[k], compareGmt))
  }

  lemma SomePeriod(z: Zone, t: int, compareGmt: bool) returns (k: nat)
    requires IsZone(z) && Sorted(z.transitions, compareGmt)
    ensures k <= |z.transitions| && InPeriod(z, t, k, compareGmt)
  {
    var ts := z.transitions;
    k := LowerBound(ts, t, compareGmt, 0, |ts|);
    if k < |ts| && Key(ts[k], compareGmt) == t {
      k := k + 1;
    }
  }

  /** The binary search finds the type in force since the last transition at or before the sentry. */
  lemma FindLocaltimeIsLastTransition(z: Zone, t: int, k: nat, compareGmt: bool)
    requires IsZone(z) && Sorted(z.transitions, compareGmt) && k <= |z.transitions|
    requires InPeriod(z, t, k, compareGmt)
    ensures FindLocaltime(z, t, compareGmt) == PeriodType(z, k)
  {
    var ts := z.transitions;
    if |ts| > 0 {
      var i := LowerBound(ts, t, compareGmt, 0, |ts|);
      if k > 0 && k < |ts| {
        assert k - 1 <= i <= k;
      }
    }
  }

  /** Local time in period k is UTC moved by the offset of that period, with its flag. */
  lemma LocalTimeInPeriod(z: Zone, t: int, k: nat)
    requires IsZone(z) && Sorted(z.transitions, true) && k <= |z.transitions| && InPeriod(z, t, k, true)
    ensures var p := if k == 0 then z.types[0] else z.types[z.transitions[k - 1].index];
            var local := t + p.gmtOffset;
            var s := local % 86400;
            ToLocalTime(z, t)
            == Tm(GetYearMonthDay(local / 86400 + 2440588), s / 3600, s / 60 % 60, s % 60, p.isDst)
  {
    hide FindLocaltime, ToUtcTime, GetYearMonthDay, Sorted;
    FindLocaltimeIsLastTransition(z, t, k, true);
    UtcDay(t + PeriodType(z, k).gmtOffset);
  }

  /**
    A clock reading, whether any clock showed it or not: read with the offset of the last transition whose local
    time is not later, or an hour earlier if it claims summer time and the first answer is the same hour and
    minute of a period without it.
   */
  lemma FromLocalTimeInPeriods(z: Zone, tm: Tm, k: nat, j: nat)
    requires IsZone(z) && Sorted(z.transitions, true) && Sorted(z.transitions, false)
    requires k <= |z.transitions| && InPeriod(z, FromUtcTime(tm), k, false)
    requires j <= |z.transitions| && InPeriod(z, FromUtcTime(tm) - PeriodType(z, k).gmtOffset, j, true)
    requires IsClockTime(tm)
    ensures var offset := PeriodType(z, k).gmtOffset;
            var shown := FromUtcTime(tm) - offset + PeriodType(z, j).gmtOffset;
            FromLocalTime(z, tm) ==
            FromUtcTime(tm) - offset
            - (if tm.isDst && !PeriodType(z, j).isDst && shown / 60 % 1440 == FromUtcTime(tm) / 60 % 1440 then 3600
               else 0)
  {
    hide FindLocaltime, ToLocalTime, GetYearMonthDay, FromUtcTime, Sorted, IsClockTime, InPeriod;
    FindLocaltimeIsLastTransition(z, FromUtcTime(tm), k, false);
    var t := FromUtcTime(tm) - PeriodType(z, k).gmtOffset;
    LocalTimeInPeriod(z, t, j);
    SameMinute(t + PeriodType(z, j).gmtOffset, tm);
  }

  lemma SameMinute(local: int, tm: Tm)
    requires IsClockTime(tm)
    ensures var s := local % 86400;
            s / 3600 == tm.hour && s / 60 % 60 == tm.min <==> local / 60 % 1440 == FromUtcTime(tm) / 60 % 1440
  {
    hide ToJulianDay;
    var days := ToJulianDay(tm.date) - JULIAN_DAY_OF_1970_01_01;
    var seconds := tm.hour * 3600 + tm.min * 60 + tm.sec;
    assert FromUtcTime(tm) == days * 86400 + seconds;
    hide FromUtcTime;
    MinuteOfDay(days, seconds);
    MinuteOfDay(local / 86400, local % 86400);
    ClockOfMinute(local % 86400, tm.hour, tm.min, tm.sec);
  }

  lemma MinuteOfDay(days: int, second: int)
    requires 0 <= second < 86400
    ensures (days * 86400 + second) / 60 % 1440 == second / 60
  {
    assert (days * 86400 + second) / 60 == days * 1440 + second / 60;
  }

  lemma ClockOfMinute(second: int, hour: int, min: int, sec: int)
    requires 0 <= second < 86400 && 0 <= hour <= 23 && 0 <= min <= 59 && 0 <= sec <= 59
    ensures second / 3600 == hour && second / 60 % 60 == min <==> second / 60 == (hour * 3600 + min * 60 + sec) / 60
  {
    assert second / 3600 == second / 60 / 60;
    assert (hour * 3600 + min * 60 + sec) / 60 == hour * 60 + min;
  }

  // ---------- the local-time round trip ----------

  /** The amount by which clocks go back at transition i. */
  function DropAt(z: Zone, i: nat): int
    requires IsZone(z) && i < |z.transitions|
  {
    PeriodType(z, i).gmtOffset - PeriodType(z, i + 1).gmtOffset
  }

  /** An hour at least between a transition and the next one, in both clocks. */
  predicate HourApart(z: Zone, i: nat)
    requires i + 1 < |z.transitions|
  {
    && z.transitions[i + 1].gmt - z.transitions[i].gmt >= 3600
    && z.transitions[i + 1].local - z.transitions[i].local >= 3600
  }

  predicate WellSeparated(z: Zone) {
    && Sorted(z.transitions, true) && Sorted(z.transitions, false)
    && forall i: nat :: i + 1 < |z.transitions| ==> HourApart(z, i)
  }

  /** Clocks do not go back at transition i, or they go back one hour from summer to winter time. */
  predicate GoodDrop(z: Zone, i: nat)
    requires IsZone(z) && i < |z.transitions|
  {
    DropAt(z, i) > 0 ==> DropAt(z, i) == 3600 && PeriodType(z, i).isDst && !PeriodType(z, i + 1).isDst
  }

  /** Local seconds t + offset shown by the clock in period k, and the period a local search lands in. */
  lemma LocalPeriod(z: Zone, t: int, k: nat)
    requires IsZone(z) && WellSeparated(z) && k <= |z.transitions| && InPeriod(z, t, k, true)
    requires k < |z.transitions| ==> DropAt(z, k) <= 3600
    ensures var local := t + PeriodType(z, k).gmtOffset;
            if k < |z.transitions| && z.transitions[k].gmt - t <= DropAt(z, k)
            then InPeriod(z, local, k + 1, false) else InPeriod(z, local, k, false)
  {
    var local := t + PeriodType(z, k).gmtOffset;
    if k < |z.transitions| {
      assert z.transitions[k].local == z.transitions[k].gmt + PeriodType(z, k).gmtOffset - DropAt(z, k);
      if z.transitions[k].gmt - t <= DropAt(z, k) && k + 1 < |z.transitions| {
        assert HourApart(z, k);
      }
    }
  }

  /** What converting there and back yields, when clocks go back by at most an hour at the end of the period. */
  lemma RoundTripValue(z: Zone, t: int, k: nat)
    requires IsZone(z) && WellSeparated(z) && k <= |z.transitions| && InPeriod(z, t, k, true)
    requires k < |z.transitions| ==> DropAt(z, k) <= 3600
    requires t + PeriodType(z, k).gmtOffset >= FIRST_SECOND
    ensures FromLocalTime(z, ToLocalTime(z, t)) ==
            if k < |z.transitions| && z.transitions[k].gmt - t <= DropAt(z, k)
            then t + DropAt(z, k) - (if PeriodType(z, k).isDst && !PeriodType(z, k + 1).isDst then 3600 else 0)
            else t
  {
    hide ToUtcTime, FromUtcTime, FindLocaltime;
    var local := t + PeriodType(z, k).gmtOffset;
    var tm := ToLocalTime(z, t);
    FindLocaltimeIsLastTransition(z, t, k, true);
    UtcRoundTrip(local);
    DstFlagIgnored(ToUtcTime(local), tm.isDst);
    LocalPeriod(z, t, k);
    if k < |z.transitions| && z.transitions[k].gmt - t <= DropAt(z, k) {
      FindLocaltimeIsLastTransition(z, local, k + 1, false);
      var again := t + DropAt(z, k);
      assert InPeriod(z, again, k + 1, true) by {
        if k + 1 < |z.transitions| {
          assert HourApart(z, k);
        }
      }
      FindLocaltimeIsLastTransition(z, again, k + 1, true);
      assert again + PeriodType(z, k + 1).gmtOffset == local;
    } else {
      FindLocaltimeIsLastTransition(z, local, k, false);
    }
  }

  /** The seconds the round trip is claimed for: from the first transition on, or all of them. */
  predicate FromFirst(z: Zone, t: int) {
    |z.transitions| > 0 ==> z.transitions[0].gmt <= t
  }

  predicate RoundTrips(z: Zone, t: int)
    requires IsZone(z) && WellSeparated(z)
  {
    FromLocalTime(z, ToLocalTime(z, t)) == t
  }

  lemma LocalTimeRoundTrip(z: Zone, t: int)
    requires IsZone(z) && WellSeparated(z) && |z.transitions| > 0
    requires forall i :: 1 <= i < |z.transitions| ==> GoodDrop(z, i)
    requires FromFirst(z, t)
    ensures RoundTrips(z, t)
  {
    var k := SomePeriod(z, t, true);
    if k < |z.transitions| {
      assert GoodDrop(z, k);
    }
    RoundTripValue(z, t, k);
  }

  /**
    Clocks that go back by more than an hour: at the second before, the local search lands in a period
    whose offset is more than an hour smaller, so that neither candidate is the second itself.
   */
  lemma LargeDropFails(z: Zone, i: nat)
    requires IsZone(z) && WellSeparated(z) && i < |z.transitions| && DropAt(z, i) > 3600
    requires z.transitions[i].gmt - 1 + PeriodType(z, i).gmtOffset >= FIRST_SECOND
    ensures !RoundTrips(z, z.transitions[i].gmt - 1)
  {
    hide ToUtcTime, FromUtcTime, FindLocaltime;
    var ts := z.transitions;
    var t := ts[i].gmt - 1;
    var local := t + PeriodType(z, i).gmtOffset;
    FindLocaltimeIsLastTransition(z, t, i, true);
    UtcRoundTrip(local);
    DstFlagIgnored(ToUtcTime(local), ToLocalTime(z, t).isDst);
    var k := SomePeriod(z, local, false);
    FindLocaltimeIsLastTransition(z, local, k, false);
    LaterOffset(z, i, local, k);
  }

  lemma LaterOffset(z: Zone, i: nat, local: int, k: nat)
    requires IsZone(z) && WellSeparated(z) && i < |z.transitions| && DropAt(z, i) > 3600 && k <= |z.transitions|
    requires local == z.transitions[i].gmt - 1 + PeriodType(z, i).gmtOffset && InPeriod(z, local, k, false)
    ensures PeriodType(z, i).gmtOffset - PeriodType(z, k).gmtOffset > 3600
  {
    var ts := z.transitions;
    assert ts[i].local <= local;
    assert k > i;
    if k > i + 1 {
      assert HourApart(z, i);
      assert ts[i + 1].gmt <= ts[k - 1].gmt;
    }
  }

  lemma BadDropValue(z: Zone, i: nat)
    requires IsZone(z) && WellSeparated(z) && i < |z.transitions| && !GoodDrop(z, i)
    requires z.transitions[i].gmt - 1 + PeriodType(z, i).gmtOffset >= FIRST_SECOND
    ensures !RoundTrips(z, z.transitions[i].gmt - 1)
  {
    if DropAt(z, i) > 3600 {
      LargeDropFails(z, i);
    } else {
      var t := z.transitions[i].gmt - 1;
      assert i > 0 ==> z.transitions[i - 1].gmt < z.transitions[i].gmt;
      RoundTripValue(z, t, i);
    }
  }

  /** A transition that breaks the rule breaks the round trip at the second before it. */
  lemma BadDropFails(z: Zone, i: nat)
    requires IsZone(z) && WellSeparated(z) && 1 <= i < |z.transitions| && !GoodDrop(z, i)
    ensures FromFirst(z, z.transitions[i].gmt - 1)
    ensures !RoundTrips(z, z.transitions[i].gmt - 1)
  {
    assert z.transitions[0].gmt <= z.transitions[i - 1].gmt < z.transitions[i].gmt;
    BadDropValue(z, i);
  }

  /** From the first transition on: exactly the zones whose every drop is one hour out of summer time. */
  lemma LocalTimeRoundTripExactly(z: Zone)
    requires IsZone(z) && WellSeparated(z) && |z.transitions| > 0
    ensures (forall t :: FromFirst(z, t) ==> RoundTrips(z, t))
       <==> (forall i :: 1 <= i < |z.transitions| ==> GoodDrop(z, i))
  {
    if forall i :: 1 <= i < |z.transitions| ==> GoodDrop(z, i) {
      forall t | FromFirst(z, t) ensures RoundTrips(z, t) {
        LocalTimeRoundTrip(z, t);
      }
    } else {
      var i :| 1 <= i < |z.transitions| && !GoodDrop(z, i);
      BadDropFails(z, i);
    }
  }

  /** Before the first transition the first local type is used; the change to it must be a good one too. */
  lemma EarlyRoundTrip(z: Zone, t: int)
    requires IsZone(z) && WellSeparated(z) && !FromFirst(z, t)
    requires t + z.types[0].gmtOffset >= FIRST_SECOND
    ensures GoodDrop(z, 0) ==> RoundTrips(z, t)
    ensures t == z.transitions[0].gmt - 1 && RoundTrips(z, t) ==> GoodDrop(z, 0)
  {
    hide RoundTrips;
    if GoodDrop(z, 0) {
      EarlyGood(z, t);
    } else if t == z.transitions[0].gmt - 1 {
      BadDropValue(z, 0);
    }
  }

  lemma EarlyGood(z: Zone, t: int)
    requires IsZone(z) && WellSeparated(z) && !FromFirst(z, t) && GoodDrop(z, 0)
    requires t + z.types[0].gmtOffset >= FIRST_SECOND
    ensures RoundTrips(z, t)
  {
    RoundTripValue(z, t, 0);
  }

  /** A zone whose clocks go back half an hour (as on Lord Howe Island) does not convert back. */
  lemma HalfHourDropFails() returns (z: Zone, t: int)
    ensures IsZone(z) && WellSeparated(z) && FromFirst(z, t) && !RoundTrips(z, t)
  {
    hide RoundTrips;
    z := Zone([Transition(1000000, 1039600, 0), Transition(9000000, 9037800, 1)],
              [LocalType(39600, true), LocalType(37800, false)]);
    t := 8999999;
    assert DropAt(z, 1) == 1800;
    BadDropFails(z, 1);
  }
}
