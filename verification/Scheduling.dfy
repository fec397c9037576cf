/**
 What period a scheduled event reports on: an explicit override, or the calendar month before the
 event's UTC month.
 */
module Scheduling {
  import opened Base
  import opened Calendar

  datatype Event = Event(
    time: Option<Reading>, periodStart: Option<Date>, periodEnd: Option<Date>, version: Option<string>)

  datatype EventError = HalfOverride | ReversedOverride | DateOverflow

  /** The validator of the event model: both ends of an override or none, in order. */
  function OverrideError(e: Event): Option<EventError> {
    if e.periodStart.Some? != e.periodEnd.Some? then Some(HalfOverride)
    else if e.periodStart.Some? && Before(e.periodEnd.value, e.periodStart.value) then Some(ReversedOverride)
    else None
  }

  /** The reading a period is derived from when nothing overrides it. */
  function Reference(e: Event, now: Reading): Reading {
    if e.time.Some? then e.time.value else now
  }

  /** Validation followed by `resolve_period`. */
  function ResolvePeriod(e: Event, now: Reading): Result<Period, EventError> {
    match OverrideError(e)
    case Some(error) => Err(error)
    case None =>
      if e.periodStart.Some? then Ok(Period(e.periodStart.value, e.periodEnd.value))
      else
        match ToUtc(Reference(e, now))
        case None => Err(DateOverflow)
        case Some(t) =>
          match PreviousMonthPeriod(t.date)
          case None => Err(DateOverflow)
          case Some(p) => Ok(p)
  }

  /** The instant a reading denotes; a naive reading is taken as UTC. */
  function InstantOf(r: Reading): int {
    Instant(r.local) - (if r.offset.Some? then r.offset.value else 0)
  }

  const FIRST := Timestamp(Date(1, 1, 1), 0)
  const LAST := Timestamp(Date(9999, 12, 31), DAY - 1)

  lemma Representable(t: Timestamp)
    requires t.Valid()
    ensures Instant(FIRST) <= Instant(t) <= Instant(LAST)
  {
    OrdinalKeepsOrder(FIRST.date, t.date);
    OrdinalKeepsOrder(t.date, LAST.date);
    DaysOrdered(Ordinal(FIRST.date), Ordinal(t.date));
    DaysOrdered(Ordinal(t.date), Ordinal(LAST.date));
  }

  /** Conversion to UTC overflows exactly on instants outside years 1 to 9999. */
  lemma ToUtcFailsIff(r: Reading)
    requires r.Valid()
    ensures ToUtc(r).Some? <==> Instant(FIRST) <= InstantOf(r) <= Instant(LAST)
  {
    if ToUtc(r).Some? {
      ToUtcKeepsInstant(r);
      Representable(ToUtc(r).value);
    } else {
      DayBeforeIsPredecessor(r.local.date);
      DayAfterIsSuccessor(r.local.date);
    }
  }

  /** A timestamp lies in the window of its own month. */
  lemma InOwnMonth(t: Timestamp)
    requires t.Valid()
    ensures Window(MonthPeriod(MonthIndex(t.date))).Has(Instant(t))
  {
    var k := MonthIndex(t.date);
    assert k / 12 + 1 == t.date.year && k % 12 + 1 == t.date.month;
    var p := MonthPeriod(k);
    DaysOrdered(Ordinal(p.first), Ordinal(t.date));
    DaysOrdered(Ordinal(t.date), Ordinal(p.last));
  }

  lemma {:induction false} MonthsOrdered(j: nat, k: nat)
    requires j < k
    ensures Window(MonthPeriod(j)).hi < Window(MonthPeriod(k)).lo
    decreases k
  {
    hide Window, MonthPeriod;
    MonthsAdjoin(k - 1);
    if j < k - 1 {
      MonthsOrdered(j, k - 1);
    }
  }

  /**
   Without an override the report covers exactly the whole month before the one the event's own
   instant falls in, in UTC, and the present instant's only if the event carries none, whatever
   offset it was stamped with; resolution fails only for instants before February of year 1 or
   past year 9999.
   */
  lemma ReportsMonthBeforeInstant(e: Event, now: Reading, k: nat)
    requires e.periodStart.None? && e.periodEnd.None?
    requires match e.time case Some(stamp) => stamp.Valid() case None => now.Valid()
    ensures var x := match e.time case Some(stamp) => InstantOf(stamp) case None => InstantOf(now);
            && (ResolvePeriod(e, now).Ok? <==> Window(MonthPeriod(1)).lo <= x <= Instant(LAST))
            && (x <= Instant(LAST) ==>
                 (ResolvePeriod(e, now) == Ok(MonthPeriod(k)) <==> Window(MonthPeriod(k + 1)).Has(x)))
  {
    hide Window, MonthPeriod, Instant, PreviousMonthPeriod, MonthIndex;
    var r := Reference(e, now);
    ToUtcFailsIff(r);
    FirstMonths();
    MonthsAdjoin(0);
    MonthsOrdered(0, 1);
    if ToUtc(r).Some? {
      ResolveInMonth(e, now, k);
    } else {
      MonthsOrdered(0, k + 1);
    }
  }

  lemma FirstMonths()
    ensures Window(MonthPeriod(0)).lo == Instant(FIRST)
  {
  }

  lemma ResolveInMonth(e: Event, now: Reading, k: nat)
    requires e.periodStart.None? && e.periodEnd.None? && Reference(e, now).Valid() && ToUtc(Reference(e, now)).Some?
    ensures var x := InstantOf(Reference(e, now));
            && (ResolvePeriod(e, now).Ok? <==> Window(MonthPeriod(1)).lo <= x)
            && (ResolvePeriod(e, now) == Ok(MonthPeriod(k)) <==> Window(MonthPeriod(k + 1)).Has(x))
  {
    hide Window, MonthPeriod, Instant, PreviousMonthPeriod, MonthIndex;
    ToUtcKeepsInstant(Reference(e, now));
    var t := ToUtc(Reference(e, now)).value;
    var m := MonthIndex(t.date);
    MonthIndexNat(t.date);
    InOwnMonth(t);
    PreviousMonthIsWholeMonth(t.date);
    MonthsOrdered(0, 1);
    if m == 0 {
      MonthsOrdered(0, k + 1);
    } else {
      MonthsAdjoin(1);
      if m > 1 { MonthsOrdered(1, m); }
      MonthsDistinct(m - 1, k);
      if m < k + 1 { MonthsOrdered(m, k + 1); }
      if k + 1 < m { MonthsOrdered(k + 1, m); }
    }
  }

  lemma MonthIndexNat(d: Date)
    requires d.Valid()
    ensures 0 <= MonthIndex(d)
  {
  }

  lemma MonthsDistinct(j: nat, k: nat)
    ensures MonthPeriod(j) == MonthPeriod(k) ==> j == k
  {
    assert j == 12 * (j / 12) + j % 12 && k == 12 * (k / 12) + k % 12;
  }

  lemma SameInstantSameUtc(q: Reading, r: Reading)
    requires q.Valid() && r.Valid() && InstantOf(q) == InstantOf(r)
    ensures ToUtc(q) == ToUtc(r)
  {
    ToUtcFailsIff(q);
    ToUtcFailsIff(r);
    if ToUtc(q).Some? {
      ToUtcKeepsInstant(q);
      ToUtcKeepsInstant(r);
      InstantInjective(ToUtc(q).value, ToUtc(r).value);
    }
  }

  /**
   Events stamped with different offsets but the same instant report on the same period, whenever
   each of them is handled.
   */
  lemma OffsetsDoNotMatter(e: Event, q: Reading, r: Reading, now: Reading, later: Reading)
    requires q.Valid() && r.Valid() && InstantOf(q) == InstantOf(r)
    ensures ResolvePeriod(e.(time := Some(q)), now) == ResolvePeriod(e.(time := Some(r)), later)
  {
    SameInstantSameUtc(q, r);
  }

  /** Only an event without a time and without an override depends on when it is handled. */
  lemma HandlingTimeMatters(e: Event, now: Reading, later: Reading)
    requires now.Valid()
    ensures e.time.Some? || e.periodStart.Some? || e.periodEnd.Some? ==> ResolvePeriod(e, now) == ResolvePeriod(e, later)
    ensures ResolvePeriod(e.(time := None), now) == ResolvePeriod(e.(time := Some(now)), later)
  {
  }

  ghost predicate ValidEvent(e: Event) {
    && (e.time.Some? ==> e.time.value.Valid())
    && (e.periodStart.Some? ==> e.periodStart.value.Valid())
    && (e.periodEnd.Some? ==> e.periodEnd.value.Valid())
  }

  /**
   An override is refused exactly if one end is missing or the ends are reversed, and is then
   taken as it is; every period that is resolved at all has a window.
   */
  lemma ResolvedPeriodsAreProper(e: Event, now: Reading)
    requires ValidEvent(e) && now.Valid()
    ensures e.periodStart.Some? && e.periodEnd.Some? ==>
              && (ResolvePeriod(e, now).Ok? <==> Ordinal(e.periodStart.value) <= Ordinal(e.periodEnd.value))
              && (ResolvePeriod(e, now).Ok? ==>
                   ResolvePeriod(e, now) == Ok(Period(e.periodStart.value, e.periodEnd.value)))
    ensures e.periodStart.Some? != e.periodEnd.Some? ==> ResolvePeriod(e, now) == Err(HalfOverride)
    ensures ResolvePeriod(e, now).Ok? ==>
              var p := ResolvePeriod(e, now).value;
              p.first.Valid() && p.last.Valid() && Window(p).lo < Window(p).hi
  {
    if e.periodStart.Some? && e.periodEnd.Some? {
      OrdinalKeepsOrder(e.periodEnd.value, e.periodStart.value);
      if Ordinal(e.periodStart.value) <= Ordinal(e.periodEnd.value) {
        DaysOrdered(Ordinal(e.periodStart.value), Ordinal(e.periodEnd.value));
      }
    } else if e.periodStart.None? && e.periodEnd.None? && ResolvePeriod(e, now).Ok? {
      DerivedPeriodIsProper(e, now);
    }
  }

  lemma DerivedPeriodIsProper(e: Event, now: Reading)
    requires e.periodStart.None? && e.periodEnd.None? && Reference(e, now).Valid() && ResolvePeriod(e, now).Ok?
    ensures var p := ResolvePeriod(e, now).value;
            p.first.Valid() && p.last.Valid() && Window(p).lo < Window(p).hi
  {
    ToUtcKeepsInstant(Reference(e, now));
    var t := ToUtc(Reference(e, now)).value;
    MonthIndexNat(t.date);
    PreviousMonthIsWholeMonth(t.date);
    MonthIsProper(MonthIndex(t.date) - 1);
  }

  lemma MonthIsProper(k: nat)
    requires k < 12 * MAX_YEAR
    ensures MonthPeriod(k).first.Valid() && MonthPeriod(k).last.Valid()
    ensures Window(MonthPeriod(k)).lo < Window(MonthPeriod(k)).hi
  {
    DaysOrdered(Ordinal(MonthPeriod(k).first), Ordinal(MonthPeriod(k).last));
  }
}
