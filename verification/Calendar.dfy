/**
 Dates of the proleptic Gregorian calendar (section 3.2.1 of ISO 8601:2004) as Python's
 `datetime.date` has them, UTC timestamps with microseconds, and the previous-month policy of
 scheduled reports.
 */
module Calendar {
  import opened Base
  import opened Strings

  const DAY: int := 86400000000 // microseconds
  const MAX_YEAR: int := 9999

  datatype Date = Date(year: int, month: int, day: int) {
    ghost predicate Valid() {
      1 <= year <= MAX_YEAR && 1 <= month <= 12 && 1 <= day <= DaysInMonth(year, month)
    }
  }

  predicate IsLeap(y: int) {
    y % 4 == 0 && (y % 100 != 0 || y % 400 == 0)
  }

  function DaysInMonth(y: int, m: int): (r: int)
    ensures 28 <= r <= 31
  {
    if m == 2 then (if IsLeap(y) then 29 else 28)
    else if m == 4 || m == 6 || m == 9 || m == 11 then 30
    else 31
  }

  function DaysBeforeYear(y: int): int {
    (y - 1) * 365 + (y - 1) / 4 - (y - 1) / 100 + (y - 1) / 400
  }

  function DaysBeforeMonth(y: int, m: int): int
  {
    CommonDaysBefore(m) + (if m > 2 && IsLeap(y) then 1 else 0)
  }

  /** Days before month `m` of a common year; 13 stands for the whole year. */
  function CommonDaysBefore(m: int): int {
    if m <= 1 then 0 else if m == 2 then 31 else if m == 3 then 59 else if m == 4 then 90
    else if m == 5 then 120 else if m == 6 then 151 else if m == 7 then 181 else if m == 8 then 212
    else if m == 9 then 243 else if m == 10 then 273 else if m == 11 then 304 else if m == 12 then 334
    else 365
  }

  /** `date.toordinal()`: 1 is the first of January of year 1. */
  function Ordinal(d: Date): int
  {
    DaysBeforeYear(d.year) + DaysBeforeMonth(d.year, d.month) + d.day
  }

  lemma YearLength(y: int)
    requires y >= 1
    ensures DaysBeforeYear(y) + DaysBeforeMonth(y, 13) == DaysBeforeYear(y + 1)
  {
    LeapCounts(y);
  }

  lemma LeapCounts(y: int)
    requires y >= 1
    ensures y / 4 - (y - 1) / 4 == if y % 4 == 0 then 1 else 0
    ensures y / 100 - (y - 1) / 100 == if y % 100 == 0 then 1 else 0
    ensures y / 400 - (y - 1) / 400 == if y % 400 == 0 then 1 else 0
    ensures y % 100 == 0 ==> y % 4 == 0
    ensures y % 400 == 0 ==> y % 100 == 0
  {
  }

  lemma {:induction false} YearsGrow(y: int, z: int)
    requires 1 <= y <= z
    ensures DaysBeforeYear(y) <= DaysBeforeYear(z)
    ensures y < z ==> DaysBeforeYear(y + 1) <= DaysBeforeYear(z)
    decreases z - y
  {
    if y < z {
      YearLength(y);
      MonthsGrow(y, 1, 13);
      YearsGrow(y + 1, z);
    }
  }

  lemma {:induction false} MonthsGrow(y: int, m: int, n: int)
    requires 1 <= m <= n <= 13
    ensures DaysBeforeMonth(y, m) <= DaysBeforeMonth(y, n)
    ensures m < n ==> DaysBeforeMonth(y, m) + DaysInMonth(y, m) <= DaysBeforeMonth(y, n)
    decreases n
  {
    if m < n {
      MonthsGrow(y, m, n - 1);
    }
  }

  predicate Before(a: Date, b: Date) {
    a.year < b.year || (a.year == b.year && (a.month < b.month || (a.month == b.month && a.day < b.day)))
  }

  /** Ordinals count days in calendar order, so a date is determined by its ordinal. */
  lemma OrdinalKeepsOrder(a: Date, b: Date)
    requires a.Valid() && b.Valid()
    ensures Before(a, b) <==> Ordinal(a) < Ordinal(b)
    ensures Ordinal(a) == Ordinal(b) ==> a == b
  {
    if Before(a, b) {
      OrdinalIncreases(a, b);
    } else if Before(b, a) {
      OrdinalIncreases(b, a);
    }
  }

  lemma OrdinalIncreases(a: Date, b: Date)
    requires a.Valid() && b.Valid() && Before(a, b)
    ensures Ordinal(a) < Ordinal(b)
  {
    MonthsGrow(b.year, 1, b.month);
    if a.year < b.year {
      YearsGrow(a.year, b.year);
      YearLength(a.year);
      MonthsGrow(a.year, a.month, 13);
    } else {
      MonthsGrow(a.year, a.month, b.month);
    }
  }

  // ---- date - timedelta(days=1), and its inverse ----

  function DayBefore(d: Date): (r: Option<Date>)
  {
    if d.day > 1 then Some(d.(day := d.day - 1))
    else if d.month > 1 then Some(Date(d.year, d.month - 1, DaysInMonth(d.year, d.month - 1)))
    else if d.year > 1 then Some(Date(d.year - 1, 12, 31))
    else None
  }

  function DayAfter(d: Date): (r: Option<Date>)
  {
    if d.day < DaysInMonth(d.year, d.month) then Some(d.(day := d.day + 1))
    else if d.month < 12 then Some(Date(d.year, d.month + 1, 1))
    else if d.year < MAX_YEAR then Some(Date(d.year + 1, 1, 1))
    else None
  }

  lemma YearTurns(y: int)
    requires y >= 1
    ensures Ordinal(Date(y + 1, 1, 1)) == Ordinal(Date(y, 12, 31)) + 1
  {
    YearLength(y);
  }

  lemma NextMonth(y: int, m: int)
    requires 1 <= y && 1 <= m <= 12
    ensures Ordinal(Date(y, m, DaysInMonth(y, m))) + 1
            == Ordinal(if m < 12 then Date(y, m + 1, 1) else Date(y + 1, 1, 1))
  {
    if m == 12 {
      YearTurns(y);
    }
  }

  /** Subtracting a day is subtraction on ordinals; it overflows only on the first date of all. */
  lemma DayBeforeIsPredecessor(d: Date)
    requires d.Valid()
    ensures DayBefore(d).None? <==> d == Date(1, 1, 1)
    ensures DayBefore(d).Some? ==> DayBefore(d).value.Valid() && Ordinal(DayBefore(d).value) == Ordinal(d) - 1
  {
    if DayBefore(d).Some? {
      DayBeforeOrdinal(d);
    }
  }

  lemma DayBeforeOrdinal(d: Date)
    requires d.Valid() && DayBefore(d).Some?
    ensures Ordinal(DayBefore(d).value) == Ordinal(d) - 1
  {
    if d.day == 1 {
      FirstOfMonth(d.year, d.month);
    }
  }

  lemma FirstOfMonth(y: int, m: int)
    requires 1 <= y && 1 <= m <= 12 && (y > 1 || m > 1)
    ensures var e := if m > 1 then Date(y, m - 1, DaysInMonth(y, m - 1)) else Date(y - 1, 12, 31);
            Ordinal(e) == Ordinal(Date(y, m, 1)) - 1
  {
    if m > 1 {
      NextMonth(y, m - 1);
    } else {
      YearTurns(y - 1);
    }
  }

  lemma DayAfterIsSuccessor(d: Date)
    requires d.Valid()
    ensures DayAfter(d).None? <==> d == Date(MAX_YEAR, 12, 31)
    ensures DayAfter(d).Some? ==> DayAfter(d).value.Valid() && Ordinal(DayAfter(d).value) == Ordinal(d) + 1
  {
    if d.day == 31 && d.month == 12 {
      YearTurns(d.year);
    }
  }

  // ---- Timestamps ----

  /** A UTC timestamp: a date and the microsecond of the day. */
  datatype Timestamp = Timestamp(date: Date, micro: int) {
    ghost predicate Valid() {
      date.Valid() && 0 <= micro < DAY
    }
  }

  /** Microseconds since the start of ordinal day 0. */
  function Instant(t: Timestamp): int
  {
    Ordinal(t.date) * DAY + t.micro
  }

  lemma InstantInjective(s: Timestamp, t: Timestamp)
    requires s.Valid() && t.Valid() && Instant(s) == Instant(t)
    ensures s == t
  {
    OrdinalKeepsOrder(s.date, t.date);
  }

  /** A wall-clock reading; `None` is a naive one. The offset is east of UTC, in microseconds. */
  datatype Reading = Reading(local: Timestamp, offset: Option<int>) {
    ghost predicate Valid() {
      local.Valid() && (offset.Some? ==> -DAY < offset.value < DAY)
    }
  }

  /** `replace(tzinfo=UTC)` on a naive reading, then `astimezone(UTC)`; `None` is an overflow. */
  function ToUtc(r: Reading): Option<Timestamp> {
    var m := r.local.micro - (if r.offset.Some? then r.offset.value else 0);
    if m < 0 then
      (match DayBefore(r.local.date) case Some(d) => Some(Timestamp(d, m + DAY)) case None => None)
    else if m >= DAY then
      (match DayAfter(r.local.date) case Some(d) => Some(Timestamp(d, m - DAY)) case None => None)
    else Some(Timestamp(r.local.date, m))
  }

  lemma ToUtcKeepsInstant(r: Reading)
    requires r.Valid() && ToUtc(r).Some?
    ensures ToUtc(r).value.Valid()
    ensures Instant(ToUtc(r).value) == Instant(r.local) - (if r.offset.Some? then r.offset.value else 0)
  {
    DayBeforeIsPredecessor(r.local.date);
    DayAfterIsSuccessor(r.local.date);
  }

  // ---- The previous calendar month ----

  datatype Period = Period(first: Date, last: Date)

  /** First and last day of the month before the reference date's; `None` is the overflow. */
  function PreviousMonthPeriod(reference: Date): Option<Period> {
    match DayBefore(reference.(day := 1))
    case Some(last) => Some(Period(last.(day := 1), last))
    case None => None
  }

  /** Months counted from January of year 1. */
  function MonthIndex(d: Date): int {
    12 * (d.year - 1) + d.month - 1
  }

  /** The whole of month `k`. */
  function MonthPeriod(k: nat): Period {
    var y, m := k / 12 + 1, k % 12 + 1;
    Period(Date(y, m, 1), Date(y, m, DaysInMonth(y, m)))
  }

  /** The policy names the month before, whole, and fails only in January of year 1. */
  lemma PreviousMonthIsWholeMonth(reference: Date)
    requires reference.Valid()
    ensures PreviousMonthPeriod(reference).None? <==> MonthIndex(reference) == 0
    ensures MonthIndex(reference) > 0
            ==> PreviousMonthPeriod(reference) == Some(MonthPeriod(MonthIndex(reference) - 1))
  {
    var k := MonthIndex(reference) - 1;
    if k >= 0 {
      if reference.month > 1 {
        assert k == 12 * (reference.year - 1) + (reference.month - 2);
        assert k / 12 == reference.year - 1 && k % 12 == reference.month - 2;
      } else {
        assert k == 12 * (reference.year - 2) + 11;
        assert k / 12 == reference.year - 2 && k % 12 == 11;
      }
    }
  }

  // ---- The inclusive window of a period ----

  /** An inclusive range of instants. */
  datatype Span = Span(lo: int, hi: int) {
    predicate Has(t: int) { lo <= t <= hi }
  }

  /** From the first microsecond of the first day to the last microsecond of the last. */
  function Window(p: Period): Span
  {
    Span(Instant(Timestamp(p.first, 0)), Instant(Timestamp(p.last, DAY - 1)))
  }

  /** Non-empty spans, each starting a microsecond after the one before it ends. */
  ghost predicate Tiling(spans: seq<Span>) {
    && (forall i :: 0 <= i < |spans| ==> spans[i].lo <= spans[i].hi)
    && (forall i, j :: 0 <= i < |spans| && 0 <= j < |spans| && j == i + 1 ==> spans[i].hi + 1 == spans[j].lo)
  }

  ghost predicate InSome(spans: seq<Span>, t: int) {
    exists i :: 0 <= i < |spans| && spans[i].Has(t)
  }

  lemma {:induction false} TilesOrdered(spans: seq<Span>, i: nat, j: nat)
    requires Tiling(spans) && i < j < |spans|
    ensures spans[i].hi < spans[j].lo
    decreases j - i
  {
    if i + 1 < j {
      TilesOrdered(spans, i + 1, j);
    }
  }

  lemma {:induction false} TileFound(spans: seq<Span>, t: int) returns (i: nat)
    requires Tiling(spans) && spans != []
    requires spans[0].lo <= t <= spans[|spans| - 1].hi
    ensures i < |spans| && spans[i].Has(t)
    decreases |spans|
  {
    if t <= spans[0].hi {
      i := 0;
    } else {
      var j := TileFound(spans[1..], t);
      i := j + 1;
    }
  }

  lemma MonthSuccessor(k: nat)
    ensures var y, m := k / 12 + 1, k % 12 + 1;
            MonthPeriod(k + 1).first == if m < 12 then Date(y, m + 1, 1) else Date(y + 1, 1, 1)
  {
    assert k + 1 == 12 * (k / 12) + (k % 12 + 1);
    if k % 12 < 11 {
      assert (k + 1) / 12 == k / 12 && (k + 1) % 12 == k % 12 + 1;
    } else {
      assert (k + 1) / 12 == k / 12 + 1 && (k + 1) % 12 == 0;
    }
  }

  lemma MonthsAdjoin(k: nat)
    ensures Window(MonthPeriod(k)).hi + 1 == Window(MonthPeriod(k + 1)).lo
    ensures Window(MonthPeriod(k)).lo <= Window(MonthPeriod(k)).hi
  {
    MonthSuccessor(k);
    NextMonth(k / 12 + 1, k % 12 + 1);
    var p := MonthPeriod(k);
    DayLength(Ordinal(p.last));
    DaysOrdered(Ordinal(p.first), Ordinal(p.last));
  }

  lemma DayLength(n: int)
    ensures (n + 1) * DAY == n * DAY + DAY
  {
  }

  lemma DaysOrdered(m: int, n: int)
    requires m <= n
    ensures m * DAY <= n * DAY
  {
  }

  ghost predicate ConsecutiveMonths(refs: seq<Date>, k: nat) {
    forall i :: 0 <= i < |refs| ==> refs[i].Valid() && MonthIndex(refs[i]) == k + 1 + i
  }

  /** What firing on a date reports on; `None` if the policy overflows. */
  function Resolve(reference: Date): Option<Span>
  {
    match PreviousMonthPeriod(reference)
    case Some(p) => Some(Window(p))
    case None => None
  }

  lemma ResolveIsMonth(reference: Date)
    requires reference.Valid() && MonthIndex(reference) > 0
    ensures Resolve(reference) == Some(Window(MonthPeriod(MonthIndex(reference) - 1)))
  {
    PreviousMonthIsWholeMonth(reference);
  }

  lemma ResolvedAdjoin(a: Date, b: Date)
    requires a.Valid() && b.Valid() && 0 < MonthIndex(a) && MonthIndex(b) == MonthIndex(a) + 1
    ensures Resolve(a).Some? && Resolve(b).Some?
    ensures Resolve(a).value.lo <= Resolve(a).value.hi && Resolve(a).value.hi + 1 == Resolve(b).value.lo
  {
    hide Window, MonthPeriod, PreviousMonthPeriod, MonthIndex;
    ResolveIsMonth(a);
    ResolveIsMonth(b);
    MonthsAdjoin(MonthIndex(a) - 1);
  }

  ghost predicate ResolvesTo(refs: seq<Date>, ws: seq<Span>) {
    |ws| == |refs| && forall i :: 0 <= i < |refs| ==> refs[i].Valid() && Resolve(refs[i]) == Some(ws[i])
  }

  /**
   Firing once in each of consecutive months, on any day of each, tiles time: the resolved
   windows adjoin, and an instant lies in their span exactly when it lies in one of them, and
   then in that one only.
   */
  lemma FiringsTileTime(refs: seq<Date>, k: nat) returns (ws: seq<Span>)
    requires refs != [] && ConsecutiveMonths(refs, k)
    ensures ResolvesTo(refs, ws) && Tiling(ws)
    ensures forall t :: Span(ws[0].lo, ws[|ws| - 1].hi).Has(t) <==> InSome(ws, t)
    ensures forall t, i, j :: 0 <= i < |ws| && 0 <= j < |ws| && ws[i].Has(t) && ws[j].Has(t) ==> i == j
  {
    hide Resolve, Window, MonthPeriod, PreviousMonthPeriod, MonthIndex, DaysInMonth, InSome, Instant;
    ws := [];
    for n := 0 to |refs|
      invariant |ws| == n && Tiling(ws)
      invariant forall i :: 0 <= i < n ==> Resolve(refs[i]) == Some(ws[i])
    {
      var w := NextWindow(refs, k, n);
      TilingGrows(ws, w);
      ws := ws + [w];
    }
    TilingCoversAll(ws);
  }

  lemma TilingGrows(ws: seq<Span>, w: Span)
    requires Tiling(ws) && w.lo <= w.hi && (ws != [] ==> ws[|ws| - 1].hi + 1 == w.lo)
    ensures Tiling(ws + [w])
  {
  }

  lemma TilingCoversAll(ws: seq<Span>)
    requires Tiling(ws) && ws != []
    ensures forall t :: Span(ws[0].lo, ws[|ws| - 1].hi).Has(t) <==> InSome(ws, t)
    ensures forall t, i, j :: 0 <= i < |ws| && 0 <= j < |ws| && ws[i].Has(t) && ws[j].Has(t) ==> i == j
  {
    forall t
      ensures Span(ws[0].lo, ws[|ws| - 1].hi).Has(t) <==> InSome(ws, t)
    {
      TilingCovers(ws, t);
    }
    forall t, i, j | 0 <= i < |ws| && 0 <= j < |ws| && ws[i].Has(t) && ws[j].Has(t)
      ensures i == j
    {
      TilingCovers(ws, t);
    }
  }

  lemma NextWindow(refs: seq<Date>, k: nat, n: nat) returns (w: Span)
    requires ConsecutiveMonths(refs, k) && n < |refs|
    ensures Resolve(refs[n]) == Some(w) && w.lo <= w.hi
    ensures n > 0 ==> Resolve(refs[n - 1]).Some? && Resolve(refs[n - 1]).value.hi + 1 == w.lo
  {
    hide Resolve, Window, MonthPeriod, PreviousMonthPeriod, MonthIndex, DaysInMonth, Instant;
    ResolveIsMonth(refs[n]);
    w := Window(MonthPeriod(k + n));
    MonthsAdjoin(k + n);
    if n > 0 {
      ResolvedAdjoin(refs[n - 1], refs[n]);
    }
  }

  lemma TilingCovers(ws: seq<Span>, t: int)
    requires Tiling(ws) && ws != []
    ensures ws[0].lo <= t <= ws[|ws| - 1].hi <==> InSome(ws, t)
    ensures forall i, j :: 0 <= i < |ws| && 0 <= j < |ws| && ws[i].Has(t) && ws[j].Has(t) ==> i == j
  {
    if ws[0].lo <= t <= ws[|ws| - 1].hi {
      var i := TileFound(ws, t);
    }
    forall i | 0 <= i < |ws| && ws[i].Has(t)
      ensures ws[0].lo <= t <= ws[|ws| - 1].hi
    {
      if 0 < i { TilesOrdered(ws, 0, i); }
      if i < |ws| - 1 { TilesOrdered(ws, i, |ws| - 1); }
    }
    forall i, j | 0 <= i < j < |ws|
      ensures !(ws[i].Has(t) && ws[j].Has(t))
    {
      TilesOrdered(ws, i, j);
    }
  }

  // ---- ISO text ----

  function DateText(d: Date): (r: string)
    ensures |r| == 10
  {
    PadText(d.year, 4) + ("-" + (PadText(d.month, 2) + ("-" + PadText(d.day, 2))))
  }

  function TimeText(s: int): (r: string)
    ensures |r| == 8
  {
    PadText(s / 3600, 2) + (":" + (PadText(s / 60 % 60, 2) + (":" + PadText(s % 60, 2))))
  }

  function FractionText(f: int): string {
    if f == 0 then "" else "." + PadText(f, 6)
  }

  /** `isoformat()` of a UTC timestamp: the fraction appears only when it is not zero. */
  function IsoText(t: Timestamp): string {
    DateText(t.date) + ("T" + (TimeText(t.micro / 1000000) + (FractionText(t.micro % 1000000) + "+00:00")))
  }

  lemma Widths()
    ensures Pow10(2) == 100 && Pow10(4) == 10000 && Pow10(6) == 1000000
  {
    assert Pow10(3) == 1000;
    assert Pow10(5) == 10 * Pow10(4);
  }

  lemma DateTextInjective(a: Date, b: Date)
    requires a.Valid() && b.Valid() && DateText(a) == DateText(b)
    ensures a == b
  {
    Widths();
    var u, v := PadText(a.month, 2) + ("-" + PadText(a.day, 2)), PadText(b.month, 2) + ("-" + PadText(b.day, 2));
    SplitAt(PadText(a.year, 4), "-" + u, PadText(b.year, 4), "-" + v);
    SplitAt("-", u, "-", v);
    SplitAt(PadText(a.month, 2), "-" + PadText(a.day, 2), PadText(b.month, 2), "-" + PadText(b.day, 2));
    SplitAt("-", PadText(a.day, 2), "-", PadText(b.day, 2));
    PadTextInjective(a.year, b.year, 4);
    PadTextInjective(a.month, b.month, 2);
    PadTextInjective(a.day, b.day, 2);
  }

  lemma TimeTextInjective(u: nat, v: nat)
    requires u < 86400 && v < 86400 && TimeText(u) == TimeText(v)
    ensures u == v
  {
    Widths();
    var x := PadText(u / 60 % 60, 2) + (":" + PadText(u % 60, 2));
    var y := PadText(v / 60 % 60, 2) + (":" + PadText(v % 60, 2));
    SplitAt(PadText(u / 3600, 2), ":" + x, PadText(v / 3600, 2), ":" + y);
    SplitAt(":", x, ":", y);
    SplitAt(PadText(u / 60 % 60, 2), ":" + PadText(u % 60, 2), PadText(v / 60 % 60, 2), ":" + PadText(v % 60, 2));
    SplitAt(":", PadText(u % 60, 2), ":", PadText(v % 60, 2));
    PadTextInjective(u / 3600, v / 3600, 2);
    PadTextInjective(u / 60 % 60, v / 60 % 60, 2);
    PadTextInjective(u % 60, v % 60, 2);
    SixtyDigits(u);
    SixtyDigits(v);
  }

  lemma SixtyDigits(s: nat)
    ensures s == 3600 * (s / 3600) + 60 * (s / 60 % 60) + s % 60
  {
    assert s == 60 * (s / 60) + s % 60;
    assert s / 60 == 60 * (s / 60 / 60) + s / 60 % 60;
    assert s / 60 / 60 == s / 3600;
  }

  lemma IsoTextInjective(a: Timestamp, b: Timestamp)
    requires a.Valid() && b.Valid() && IsoText(a) == IsoText(b)
    ensures a == b
  {
    var s, t := a.micro / 1000000, b.micro / 1000000;
    var f, g := FractionText(a.micro % 1000000), FractionText(b.micro % 1000000);
    SplitAt(DateText(a.date), "T" + (TimeText(s) + (f + "+00:00")),
            DateText(b.date), "T" + (TimeText(t) + (g + "+00:00")));
    SplitAt("T", TimeText(s) + (f + "+00:00"), "T", TimeText(t) + (g + "+00:00"));
    SplitAt(TimeText(s), f + "+00:00", TimeText(t), g + "+00:00");
    SplitAt(f, "+00:00", g, "+00:00");
    DateTextInjective(a.date, b.date);
    TimeTextInjective(s, t);
    FractionInjective(a.micro % 1000000, b.micro % 1000000);
  }

  lemma FractionInjective(f: nat, g: nat)
    requires f < 1000000 && g < 1000000 && FractionText(f) == FractionText(g)
    ensures f == g
  {
    Widths();
    if f != 0 && g != 0 {
      SplitAt(".", PadText(f, 6), ".", PadText(g, 6));
      PadTextInjective(f, g, 6);
    }
  }

  // ---- What the ISO text says ----

  /** The text stands for the number in decimal digits. */
  predicate Says(s: string, n: int) {
    AllDigits(s) && DigitsValue(s) == n
  }

  lemma PadTextSays(n: nat, w: nat)
    requires n < Pow10(w)
    ensures Says(PadText(n, w), n)
  {
    PadTextValue(n, w);
  }

  /** Year, month and day, at their places. */
  lemma DateTextReads(d: Date)
    requires d.Valid()
    ensures var s := DateText(d);
            && s[4] == '-' && s[7] == '-'
            && Says(s[..4], d.year) && Says(s[5..7], d.month) && Says(s[8..10], d.day)
  {
    hide PadText, Says, DaysInMonth;
    Widths();
    PadTextSays(d.year, 4);
    PadTextSays(d.month, 2);
    PadTextSays(d.day, 2);
    var s := DateText(d);
    assert s[..4] == PadText(d.year, 4) && s[5..7] == PadText(d.month, 2) && s[8..10] == PadText(d.day, 2);
  }

  /** Hours, minutes and seconds, at their places. */
  lemma TimeTextReads(n: nat) returns (h: nat, m: nat, s: nat)
    requires n < 86400
    ensures n == 3600 * h + 60 * m + s && m < 60 && s < 60
    ensures var x := TimeText(n);
            && x[2] == ':' && x[5] == ':'
            && Says(x[..2], h) && Says(x[3..5], m) && Says(x[6..8], s)
  {
    hide PadText, Says;
    Widths();
    h, m, s := n / 3600, n / 60 % 60, n % 60;
    SixtyDigits(n);
    PadTextSays(h, 2);
    PadTextSays(m, 2);
    PadTextSays(s, 2);
    var x := TimeText(n);
    assert x[..2] == PadText(h, 2) && x[3..5] == PadText(m, 2) && x[6..8] == PadText(s, 2);
  }

  /** A point and six digits of microseconds if they are not zero, then the UTC offset. */
  lemma FractionReads(f: nat)
    requires f < 1000000
    ensures var x := FractionText(f) + "+00:00";
            if f == 0 then x == "+00:00"
            else |x| == 13 && x[0] == '.' && Says(x[1..7], f) && x[7..] == "+00:00"
  {
    hide PadText, Says;
    Widths();
    if f != 0 {
      PadTextSays(f, 6);
      var x := FractionText(f) + "+00:00";
      assert x[1..7] == PadText(f, 6);
    }
  }

  /**
   The ISO text reads year-month-dayThours:minutes:seconds, a fraction if there is one, and the
   UTC offset, each number in decimal digits at its place.
   */
  lemma IsoTextReads(t: Timestamp) returns (h: nat, m: nat, s: nat)
    requires t.Valid()
    ensures t.micro / 1000000 == 3600 * h + 60 * m + s && m < 60 && s < 60
    ensures var x, f := IsoText(t), t.micro % 1000000;
            && |x| >= 25
            && x[4] == '-' && x[7] == '-' && x[10] == 'T' && x[13] == ':' && x[16] == ':'
            && Says(x[..4], t.date.year) && Says(x[5..7], t.date.month) && Says(x[8..10], t.date.day)
            && Says(x[11..13], h) && Says(x[14..16], m) && Says(x[17..19], s)
            && (if f == 0 then x[19..] == "+00:00"
                else |x| == 32 && x[19] == '.' && Says(x[20..26], f) && x[26..] == "+00:00")
  {
    hide DateText, TimeText, FractionText, Says;
    DateTextReads(t.date);
    h, m, s := TimeTextReads(t.micro / 1000000);
    FractionReads(t.micro % 1000000);
    var d, c, e := DateText(t.date), TimeText(t.micro / 1000000), FractionText(t.micro % 1000000) + "+00:00";
    var x := IsoText(t);
    assert x[..4] == d[..4] && x[5..7] == d[5..7] && x[8..10] == d[8..10];
    assert x[11..13] == c[..2] && x[14..16] == c[3..5] && x[17..19] == c[6..8];
    assert x[19..] == e;
    if t.micro % 1000000 != 0 {
      assert x[20..26] == e[1..7] && x[26..] == e[7..];
    }
  }

  predicate NotInIsoText(c: char) {
    c != '-' && c != 'T' && c != ':' && c != '.' && c != '+' && !IsDigit(c)
  }

  lemma TwoFree(a: string, mark: string, b: string, c: char)
    requires Free(a, c) && Free(mark, c) && Free(b, c)
    ensures Free(a + (mark + b), c)
  {
    FreeConcat(mark, b, c);
    FreeConcat(a, mark + b, c);
  }

  lemma PadTextFree(n: int, w: nat, c: char)
    requires !IsDigit(c)
    ensures Free(PadText(n, w), c)
  {
  }

  lemma DateTextFree(d: Date, c: char)
    requires NotInIsoText(c)
    ensures Free(DateText(d), c)
  {
    hide PadText, Free, IsDigit;
    MarksFree(c);
    PadTextFree(d.year, 4, c);
    PadTextFree(d.month, 2, c);
    PadTextFree(d.day, 2, c);
    TwoFree(PadText(d.month, 2), "-", PadText(d.day, 2), c);
    TwoFree(PadText(d.year, 4), "-", PadText(d.month, 2) + ("-" + PadText(d.day, 2)), c);
  }

  lemma MarksFree(c: char)
    requires NotInIsoText(c)
    ensures Free("-", c) && Free("T", c) && Free(":", c) && Free(".", c) && Free("+00:00", c) && Free("", c)
  {
  }

  lemma TimeTextFree(s: int, c: char)
    requires NotInIsoText(c)
    ensures Free(TimeText(s), c)
  {
    hide PadText, Free, IsDigit;
    MarksFree(c);
    PadTextFree(s / 3600, 2, c);
    PadTextFree(s / 60 % 60, 2, c);
    PadTextFree(s % 60, 2, c);
    TwoFree(PadText(s / 60 % 60, 2), ":", PadText(s % 60, 2), c);
    TwoFree(PadText(s / 3600, 2), ":", PadText(s / 60 % 60, 2) + (":" + PadText(s % 60, 2)), c);
  }

  lemma IsoTextFree(t: Timestamp, c: char)
    requires NotInIsoText(c)
    ensures Free(IsoText(t), c)
  {
    hide PadText, Free, IsDigit, DateText, TimeText;
    var f := t.micro % 1000000;
    MarksFree(c);
    DateTextFree(t.date, c);
    TimeTextFree(t.micro / 1000000, c);
    PadTextFree(f, 6, c);
    FreeConcat(".", PadText(f, 6), c);
    TwoFree(TimeText(t.micro / 1000000), FractionText(f), "+00:00", c);
    TwoFree(DateText(t.date), "T", TimeText(t.micro / 1000000) + (FractionText(f) + "+00:00"), c);
  }
}
