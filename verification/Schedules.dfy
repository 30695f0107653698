/**
 * Schedule resolution (Clauses 12.24.4 to 12.24.9): which value a schedule has today, now.
 * The loops of the original are methods; what they must find is said without loops.
 */
module Schedules {
  import opened Prelude

  datatype BACnetTime = BACnetTime(hour: nat, minute: nat, second: nat, hundredth: nat)

  datatype ClockTime = ClockTime(hour: nat, minute: nat, second: nat, microsecond: nat)

  datatype Instant = Instant(hour: nat, minute: nat, second: nat, hundredth: nat)

  const UNSPECIFIED := 0xFF

  function TimeTuple(t: BACnetTime): Instant {
    Instant(if t.hour == UNSPECIFIED then 0 else t.hour,
            if t.minute == UNSPECIFIED then 0 else t.minute,
            if t.second == UNSPECIFIED then 0 else t.second,
            if t.hundredth == UNSPECIFIED then 0 else t.hundredth)
  }

  function NowTuple(now: ClockTime): Instant {
    Instant(now.hour, now.minute, now.second, now.microsecond / 10000)
  }

  /** Tuples are compared lexicographically. */
  predicate Before(a: Instant, b: Instant) {
    || a.hour < b.hour
    || (a.hour == b.hour && a.minute < b.minute)
    || (a.hour == b.hour && a.minute == b.minute && a.second < b.second)
    || (a.hour == b.hour && a.minute == b.minute && a.second == b.second && a.hundredth < b.hundredth)
  }

  predicate AtMost(a: Instant, b: Instant) {
    a == b || Before(a, b)
  }

  /** A field of a time, where unspecified counts as 0. */
  function Specified(x: nat): nat {
    if x == 255 then 0 else x
  }

  /** The fields are those of a time of day, each specified or not. */
  ghost predicate Proper(t: BACnetTime) {
    && (t.hour < 24 || t.hour == 255) && (t.minute < 60 || t.minute == 255)
    && (t.second < 60 || t.second == 255) && (t.hundredth < 100 || t.hundredth == 255)
  }

  /** Hundredths of a second since midnight. */
  function Hundredths(a: Instant): nat {
    ((a.hour * 60 + a.minute) * 60 + a.second) * 100 + a.hundredth
  }

  lemma ComparedByNumber(a: Instant, b: Instant)
    requires a.minute < 60 && a.second < 60 && a.hundredth < 100
    requires b.minute < 60 && b.second < 60 && b.hundredth < 100
    ensures Before(a, b) <==> Hundredths(a) < Hundredths(b)
    ensures AtMost(a, b) <==> Hundredths(a) <= Hundredths(b)
  {
  }

  /** An entry's time as it is compared: unspecified fields count as 0. */
  lemma TupleOf(t: BACnetTime)
    ensures TimeTuple(t) == Instant(Specified(t.hour), Specified(t.minute), Specified(t.second), Specified(t.hundredth))
  {
  }

  /** Entries are compared with the clock, rounded down, as numbers of hundredths of a second. */
  lemma ComparedWithClock(t: BACnetTime, now: ClockTime)
    requires Proper(t) && now.minute < 60 && now.second < 60 && now.microsecond < 1000000
    ensures var clock := Instant(now.hour, now.minute, now.second, now.microsecond / 10000);
            AtMost(TimeTuple(t), NowTuple(now)) <==> Hundredths(TimeTuple(t)) <= Hundredths(clock)
  {
    ComparedByNumber(TimeTuple(t), NowTuple(now));
  }

  /** And so are entries with each other. */
  lemma ComparedWithEachOther(t: BACnetTime, u: BACnetTime)
    requires Proper(t) && Proper(u)
    ensures Before(TimeTuple(t), TimeTuple(u)) <==> Hundredths(TimeTuple(t)) < Hundredths(TimeTuple(u))
  {
    ComparedByNumber(TimeTuple(t), TimeTuple(u));
  }

  datatype TimeValue<V> = TimeValue(time: BACnetTime, value: V)

  // --- The latest time-value not after now --------------------------------

  ghost predicate Started<V>(tvs: seq<TimeValue<V>>, now: Instant, i: nat)
    requires i < |tvs|
  {
    AtMost(TimeTuple(tvs[i].time), now)
  }

  ghost predicate NoneStarted<V>(tvs: seq<TimeValue<V>>, now: Instant) {
    forall j :: 0 <= j < |tvs| ==> !Started(tvs, now, j)
  }

  /** Entry i is not after now, none is later, and none listed before it is as late. */
  ghost predicate IsCurrent<V>(tvs: seq<TimeValue<V>>, now: Instant, i: nat)
    requires i < |tvs|
  {
    && Started(tvs, now, i)
    && forall j :: 0 <= j < |tvs| && Started(tvs, now, j) ==>
         Before(TimeTuple(tvs[j].time), TimeTuple(tvs[i].time))
         || (TimeTuple(tvs[j].time) == TimeTuple(tvs[i].time) && i <= j)
  }

  ghost function CurrentValue<V>(tvs: seq<TimeValue<V>>, now: Instant): Option<V> {
    if exists i :: 0 <= i < |tvs| && IsCurrent(tvs, now, i) then
      var i :| 0 <= i < |tvs| && IsCurrent(tvs, now, i);
      Some(tvs[i].value)
    else None
  }

  lemma CurrentIs<V>(tvs: seq<TimeValue<V>>, now: Instant, i: nat)
    requires i < |tvs| && IsCurrent(tvs, now, i)
    ensures CurrentValue(tvs, now) == Some(tvs[i].value)
  {
  }

  method ResolveTimeValues<V>(tvs: seq<TimeValue<V>>, now: ClockTime) returns (result: Option<V>)
    ensures result == CurrentValue(tvs, NowTuple(now))
    ensures result == None <==> forall j :: 0 <= j < |tvs| ==> !Started(tvs, NowTuple(now), j)
  {
    var nowT := NowTuple(now);
    var bestTime: Option<Instant> := None;
    result := None;
    ghost var best: nat := 0;
    for k := 0 to |tvs|
      invariant bestTime.Some? <==> result.Some?
      invariant bestTime.None? ==> forall j :: 0 <= j < k ==> !Started(tvs, nowT, j)
      invariant bestTime.Some? ==>
        && best < k && Started(tvs, nowT, best)
        && bestTime == Some(TimeTuple(tvs[best].time)) && result == Some(tvs[best].value)
        && forall j :: 0 <= j < k && Started(tvs, nowT, j) ==>
             Before(TimeTuple(tvs[j].time), TimeTuple(tvs[best].time))
             || (TimeTuple(tvs[j].time) == TimeTuple(tvs[best].time) && best <= j)
    {
      var t := TimeTuple(tvs[k].time);
      if AtMost(t, nowT) && (bestTime.None? || Before(bestTime.value, t)) {
        bestTime := Some(t);
        result := Some(tvs[k].value);
        best := k;
      }
    }
    if bestTime.Some? {
      CurrentIs(tvs, nowT, best);
    }
  }

  /** A day's entries are a step function of the time: it changes only where an entry lies. */
  lemma {:induction false} ConstantBetweenEntries<V>(tvs: seq<TimeValue<V>>, earlier: Instant, later: Instant)
    requires AtMost(earlier, later)
    requires forall j :: 0 <= j < |tvs| ==> !(Before(earlier, TimeTuple(tvs[j].time)) && Started(tvs, later, j))
    ensures CurrentValue(tvs, earlier) == CurrentValue(tvs, later)
  {
    assert forall j :: 0 <= j < |tvs| ==> (Started(tvs, earlier, j) <==> Started(tvs, later, j));
    assert forall i :: 0 <= i < |tvs| ==> (IsCurrent(tvs, earlier, i) <==> IsCurrent(tvs, later, i));
    if i :| 0 <= i < |tvs| && IsCurrent(tvs, earlier, i) {
      CurrentIs(tvs, earlier, i);
      CurrentIs(tvs, later, i);
    }
  }

  /** ... and it does change to an entry's value at the entry's time, for the first entry listed for it. */
  lemma {:induction false} EntryTakesEffect<V>(tvs: seq<TimeValue<V>>, i: nat)
    requires i < |tvs|
    requires forall j :: 0 <= j < i ==> TimeTuple(tvs[j].time) != TimeTuple(tvs[i].time)
    ensures CurrentValue(tvs, TimeTuple(tvs[i].time)) == Some(tvs[i].value)
  {
    CurrentIs(tvs, TimeTuple(tvs[i].time), i);
  }

  // --- Exceptions ----------------------------------------------------------

  /** What an exception applies to: a Calendar object, a calendar entry of its own, or nothing known. */
  datatype Period<E> = CalendarReference(oid: nat) | CalendarEntry(entry: E) | UnknownPeriod

  datatype SpecialEvent<E, V> = SpecialEvent(period: Period<E>, timeValues: seq<TimeValue<V>>, priority: nat)

  /** Today, as calendar matching sees it: its weekday (Monday is 1), matching entries and active calendars. */
  datatype Today<!E, !R> = Today(
    dayOfWeek: nat,
    matchesEntry: E -> bool,
    matchesRange: R -> bool,
    calendars: map<nat, bool>)

  predicate Applies<E, R>(p: Period<E>, today: Today<E, R>) {
    match p
    case CalendarReference(oid) => oid in today.calendars && today.calendars[oid]
    case CalendarEntry(entry) => today.matchesEntry(entry)
    case UnknownPeriod => false
  }

  ghost function EventValue<E, R, V>(e: SpecialEvent<E, V>, today: Today<E, R>, now: Instant): Option<V> {
    if e.priority <= 16 && Applies(e.period, today) then CurrentValue(e.timeValues, now) else None
  }

  /** Exception i has a value now, of the least priority number, and is the first listed of those. */
  ghost predicate Governs<E, R, V>(es: seq<SpecialEvent<E, V>>, today: Today<E, R>, now: Instant, i: nat)
    requires i < |es|
  {
    && EventValue(es[i], today, now).Some?
    && forall j :: 0 <= j < |es| && EventValue(es[j], today, now).Some? ==>
         es[i].priority < es[j].priority || (es[i].priority == es[j].priority && i <= j)
  }

  ghost function ExceptionValue<E, R, V>(es: seq<SpecialEvent<E, V>>, today: Today<E, R>, now: Instant): Option<V> {
    if exists i :: 0 <= i < |es| && Governs(es, today, now, i) then
      var i :| 0 <= i < |es| && Governs(es, today, now, i);
      EventValue(es[i], today, now)
    else None
  }

  /** The scan skips every exception that cannot beat the best one so far; the answer is still the governing one. */
  method ResolveExceptionSchedule<E, R, V>(es: seq<SpecialEvent<E, V>>, today: Today<E, R>, now: ClockTime)
    returns (result: Option<V>)
    ensures result == ExceptionValue(es, today, NowTuple(now))
    ensures result == None <==> forall j :: 0 <= j < |es| ==> EventValue(es[j], today, NowTuple(now)).None?
  {
    ghost var nowT := NowTuple(now);
    var bestPriority := 17;
    result := None;
    ghost var best: nat := 0;
    for k := 0 to |es|
      invariant bestPriority <= 17 && (result.None? ==> bestPriority == 17)
      invariant result.None? ==> forall j :: 0 <= j < k ==> EventValue(es[j], today, nowT).None?
      invariant result.Some? ==>
        && best < k && bestPriority == es[best].priority && EventValue(es[best], today, nowT) == result
        && forall j :: 0 <= j < k && EventValue(es[j], today, nowT).Some? ==>
             es[best].priority < es[j].priority || (es[best].priority == es[j].priority && best <= j)
    {
      if es[k].priority >= bestPriority {
        continue;
      }
      if !Applies(es[k].period, today) {
        continue;
      }
      var value := ResolveTimeValues(es[k].timeValues, now);
      if value.Some? {
        bestPriority := es[k].priority;
        result := value;
        best := k;
      }
    }
    if result.Some? {
      assert Governs(es, today, nowT, best);
    }
  }

  // --- The whole resolution -------------------------------------------------

  datatype Schedule<E, R, V> = Schedule(
    default: V,
    effectivePeriod: Option<R>,
    exceptions: seq<SpecialEvent<E, V>>,
    weekly: seq<seq<TimeValue<V>>>)

  ghost function WeekdayValue<E, R, V>(s: Schedule<E, R, V>, today: Today<E, R>, now: Instant): Option<V> {
    if 1 <= today.dayOfWeek <= |s.weekly| then CurrentValue(s.weekly[today.dayOfWeek - 1], now) else None
  }

  /** Outside its period the default; else the governing exception; else the weekday; else the default. */
  ghost function Resolved<E, R, V>(s: Schedule<E, R, V>, today: Today<E, R>, now: Instant): V {
    if s.effectivePeriod.Some? && !today.matchesRange(s.effectivePeriod.value) then s.default
    else if ExceptionValue(s.exceptions, today, now).Some? then ExceptionValue(s.exceptions, today, now).value
    else if WeekdayValue(s, today, now).Some? then WeekdayValue(s, today, now).value
    else s.default
  }

  method Resolve<E, R, V>(s: Schedule<E, R, V>, today: Today<E, R>, now: ClockTime) returns (value: V)
    ensures value == Resolved(s, today, NowTuple(now))
  {
    if s.effectivePeriod.Some? && !today.matchesRange(s.effectivePeriod.value) {
      return s.default;
    }
    if s.exceptions != [] {
      var exceptional := ResolveExceptionSchedule(s.exceptions, today, now);
      if exceptional.Some? {
        return exceptional.value;
      }
    }
    if s.weekly != [] {
      var dayIndex := today.dayOfWeek - 1;
      if 0 <= dayIndex < |s.weekly| {
        var regular := ResolveTimeValues(s.weekly[dayIndex], now);
        if regular.Some? {
          return regular.value;
        }
      }
    }
    return s.default;
  }

  /** Exception i applies today: its calendar is active, or its own entry matches. */
  ghost predicate InForce<E, R, V>(e: SpecialEvent<E, V>, today: Today<E, R>) {
    && e.priority <= 16
    && (e.period.CalendarReference? ==> e.period.oid in today.calendars && today.calendars[e.period.oid])
    && (e.period.CalendarEntry? ==> today.matchesEntry(e.period.entry))
    && !e.period.UnknownPeriod?
  }

  /** Exception g is in force, and its entry i is the current one; no exception that beats it has a current entry. */
  ghost predicate Decides<E, R, V>(es: seq<SpecialEvent<E, V>>, today: Today<E, R>, now: Instant, g: nat, i: nat)
    requires g < |es| && i < |es[g].timeValues|
  {
    && InForce(es[g], today) && IsCurrent(es[g].timeValues, now, i)
    && forall h, j :: 0 <= h < |es| && 0 <= j < |es[h].timeValues|
                      && InForce(es[h], today) && IsCurrent(es[h].timeValues, now, j) ==>
         es[g].priority < es[h].priority || (es[g].priority == es[h].priority && g <= h)
  }

  /** No exception in force has an entry that has started. */
  ghost predicate NoneDecides<E, R, V>(es: seq<SpecialEvent<E, V>>, today: Today<E, R>, now: Instant) {
    forall h, j :: 0 <= h < |es| && 0 <= j < |es[h].timeValues| && InForce(es[h], today) ==>
      !Started(es[h].timeValues, now, j)
  }

  ghost predicate InPeriod<E, R, V>(s: Schedule<E, R, V>, today: Today<E, R>) {
    s.effectivePeriod.Some? ==> today.matchesRange(s.effectivePeriod.value)
  }

  /** Of the entries that have started one is current. */
  lemma {:induction false} SomeIsCurrent<V>(tvs: seq<TimeValue<V>>, now: Instant, j: nat) returns (i: nat)
    requires j < |tvs| && Started(tvs, now, j)
    ensures i < |tvs| && IsCurrent(tvs, now, i)
  {
    i := j;
    for k := 0 to |tvs|
      invariant i < |tvs| && Started(tvs, now, i)
      invariant forall l :: 0 <= l < k && Started(tvs, now, l) ==>
                  Before(TimeTuple(tvs[l].time), TimeTuple(tvs[i].time))
                  || (TimeTuple(tvs[l].time) == TimeTuple(tvs[i].time) && i <= l)
    {
      if Started(tvs, now, k)
         && (Before(TimeTuple(tvs[i].time), TimeTuple(tvs[k].time))
             || (TimeTuple(tvs[i].time) == TimeTuple(tvs[k].time) && k < i)) {
        i := k;
      }
    }
  }

  lemma GovernorIsAnswer<E, R, V>(es: seq<SpecialEvent<E, V>>, today: Today<E, R>, now: Instant, g: nat)
    requires g < |es| && Governs(es, today, now, g)
    ensures ExceptionValue(es, today, now) == EventValue(es[g], today, now)
  {
  }

  lemma DecidedValue<E, R, V>(es: seq<SpecialEvent<E, V>>, today: Today<E, R>, now: Instant, g: nat, i: nat)
    requires g < |es| && i < |es[g].timeValues| && Decides(es, today, now, g, i)
    ensures ExceptionValue(es, today, now) == Some(es[g].timeValues[i].value)
  {
    CurrentIs(es[g].timeValues, now, i);
    forall h | 0 <= h < |es| && EventValue(es[h], today, now).Some?
      ensures es[g].priority < es[h].priority || (es[g].priority == es[h].priority && g <= h)
    {
      var j :| 0 <= j < |es[h].timeValues| && IsCurrent(es[h].timeValues, now, j);
      assert InForce(es[h], today);
    }
    GovernorIsAnswer(es, today, now, g);
  }

  lemma NothingDecided<E, R, V>(es: seq<SpecialEvent<E, V>>, today: Today<E, R>, now: Instant)
    requires NoneDecides(es, today, now)
    ensures ExceptionValue(es, today, now) == None
  {
    forall h | 0 <= h < |es|
      ensures EventValue(es[h], today, now).None?
    {
    }
  }

  /** Outside its effective period a schedule has its default. */
  lemma OutsideIsDefault<E, R, V>(s: Schedule<E, R, V>, today: Today<E, R>, now: Instant)
    requires !InPeriod(s, today)
    ensures Resolved(s, today, now) == s.default
  {
  }

  /** Within it the current entry of the deciding exception prevails, whatever the week says. */
  lemma ExceptionPrevails<E, R, V>(s: Schedule<E, R, V>, today: Today<E, R>, now: Instant, g: nat, i: nat)
    requires InPeriod(s, today)
    requires g < |s.exceptions| && i < |s.exceptions[g].timeValues| && Decides(s.exceptions, today, now, g, i)
    ensures Resolved(s, today, now) == s.exceptions[g].timeValues[i].value
  {
    DecidedValue(s.exceptions, today, now, g, i);
  }

  /** If no exception decides, the current entry of the weekday does, Monday's being the first list. */
  lemma WeekdayPrevails<E, R, V>(s: Schedule<E, R, V>, today: Today<E, R>, now: Instant, i: nat)
    requires InPeriod(s, today) && NoneDecides(s.exceptions, today, now)
    requires 1 <= today.dayOfWeek <= |s.weekly| && i < |s.weekly[today.dayOfWeek - 1]|
    requires IsCurrent(s.weekly[today.dayOfWeek - 1], now, i)
    ensures Resolved(s, today, now) == s.weekly[today.dayOfWeek - 1][i].value
  {
    NothingDecided(s.exceptions, today, now);
    CurrentIs(s.weekly[today.dayOfWeek - 1], now, i);
  }

  lemma NothingStarted<V>(tvs: seq<TimeValue<V>>, now: Instant)
    requires NoneStarted(tvs, now)
    ensures CurrentValue(tvs, now) == None
  {
    assert forall i :: 0 <= i < |tvs| ==> !IsCurrent(tvs, now, i);
  }

  /** Otherwise the default, and one of these four cases always applies. */
  lemma {:induction false} DefaultOtherwise<E, R, V>(s: Schedule<E, R, V>, today: Today<E, R>, now: Instant)
    requires InPeriod(s, today) && NoneDecides(s.exceptions, today, now)
    requires 1 <= today.dayOfWeek <= |s.weekly| ==> NoneStarted(s.weekly[today.dayOfWeek - 1], now)
    ensures Resolved(s, today, now) == s.default
  {
    NothingDecided(s.exceptions, today, now);
    if 1 <= today.dayOfWeek <= |s.weekly| {
      NothingStarted(s.weekly[today.dayOfWeek - 1], now);
    }
  }

  lemma {:induction false} FindGoverning<E, R, V>(es: seq<SpecialEvent<E, V>>, today: Today<E, R>, now: Instant, i: nat)
    returns (g: nat)
    requires i < |es| && EventValue(es[i], today, now).Some?
    ensures g < |es| && Governs(es, today, now, g)
  {
    g := i;
    var k := 0;
    while k < |es|
      invariant k <= |es| && g < |es| && EventValue(es[g], today, now).Some?
      invariant forall j :: 0 <= j < k && EventValue(es[j], today, now).Some? ==>
                  es[g].priority < es[j].priority || (es[g].priority == es[j].priority && g <= j)
    {
      if EventValue(es[k], today, now).Some?
         && (es[k].priority < es[g].priority || (es[k].priority == es[g].priority && k < g)) {
        g := k;
      }
      k := k + 1;
    }
  }

  /** If some exception in force has an entry that has started, one decides. */
  lemma {:induction false} SomeDecides<E, R, V>(es: seq<SpecialEvent<E, V>>, today: Today<E, R>, now: Instant)
    returns (g: nat, i: nat)
    requires !NoneDecides(es, today, now)
    ensures g < |es| && i < |es[g].timeValues| && Decides(es, today, now, g, i)
  {
    var h, j :| 0 <= h < |es| && 0 <= j < |es[h].timeValues| && InForce(es[h], today)
                && Started(es[h].timeValues, now, j);
    i := SomeIsCurrent(es[h].timeValues, now, j);
    CurrentIs(es[h].timeValues, now, i);
    g := FindGoverning(es, today, now, h);
    i :| 0 <= i < |es[g].timeValues| && IsCurrent(es[g].timeValues, now, i);
    forall h0, j0 | 0 <= h0 < |es| && 0 <= j0 < |es[h0].timeValues|
                    && InForce(es[h0], today) && IsCurrent(es[h0].timeValues, now, j0)
      ensures es[g].priority < es[h0].priority || (es[g].priority == es[h0].priority && g <= h0)
    {
      CurrentIs(es[h0].timeValues, now, j0);
    }
  }

  /** es without its element k. */
  function Omit<T>(es: seq<T>, k: nat): seq<T>
    requires k < |es|
  {
    es[..k] + es[k + 1..]
  }

  lemma OmitIndex<T>(es: seq<T>, k: nat, j: nat)
    requires k < |es| && j < |es| - 1
    ensures Omit(es, k)[j] == es[if j < k then j else j + 1]
  {
  }

  lemma GovernsWithout<E, R, V>(es: seq<SpecialEvent<E, V>>, today: Today<E, R>, now: Instant, g: nat, k: nat)
    requires k < |es| && g < |es| && g != k && Governs(es, today, now, g)
    ensures Governs(Omit(es, k), today, now, if g < k then g else g - 1)
    ensures Omit(es, k)[if g < k then g else g - 1] == es[g]
  {
    var rest, g' := Omit(es, k), if g < k then g else g - 1;
    OmitIndex(es, k, g');
    forall j | 0 <= j < |rest| && EventValue(rest[j], today, now).Some?
      ensures es[g].priority < rest[j].priority || (es[g].priority == rest[j].priority && g' <= j)
    {
      OmitIndex(es, k, j);
    }
  }

  /**
   * Which exception governs does not depend on the exceptions the scan passes over: dropping one
   * that another beats, wherever it is listed, leaves the answer as it is.
   */
  lemma {:induction false} BeatenExceptionIsIrrelevant<E, R, V>(
      es: seq<SpecialEvent<E, V>>, today: Today<E, R>, now: Instant, i: nat, k: nat)
    requires i < |es| && k < |es| && i != k
    requires EventValue(es[i], today, now).Some?
    requires es[i].priority < es[k].priority || (es[i].priority == es[k].priority && i < k)
    ensures ExceptionValue(Omit(es, k), today, now) == ExceptionValue(es, today, now)
  {
    var g := FindGoverning(es, today, now, i);
    GovernsWithout(es, today, now, g, k);
    GovernorIsAnswer(es, today, now, g);
    GovernorIsAnswer(Omit(es, k), today, now, if g < k then g else g - 1);
  }
}
