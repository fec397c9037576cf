/**
 From stored transactions to stored report rows, over every run of the protocol: what a committed
 COMPLETED report shows is exact, and a total too wide for its column is never shown at all.
 */
module CommittedReports {
  import opened Base
  import opened Protocol
  import opened ProtocolInvariant
  import opened ProtocolSteps
  import opened Store
  import opened Transactions
  import opened Aggregation
  import AggregationLaws
  import Calendar
  import Decimals
  import Fingerprint
  import ProtocolLaws
  import ReportLaws
  import Rules

  /** The classified transactions behind a completed run. */
  function Input(src: Source): seq<Classified> {
    Map(src.rows, ReportLaws.ClassifyV1())
  }

  /** A load holds stored rows only. */
  lemma LoadedInColumn(s: State, period: Calendar.Period, src: Source)
    requires FromSnapshot(s.db, period, src) && AllStorable(s.db.transactions) && |src.rows| < Decimals.COUNT_LIMIT
    ensures ReportLaws.AllInColumn(src.rows)
  {
    hide ReportLaws.InSpan;
    var kept := Filter(s.db.transactions[..src.upTo], ReportLaws.InSpan(Calendar.Window(period)));
    PermutedLength(src.rows, kept);
    forall t | t in src.rows
      ensures Decimals.InColumn(t.cents)
    {
      assert t in kept;
      assert t in s.db.transactions;
      assert Storable(t);
    }
  }

  /** The report of any accepted version is the v1 pipeline on the loaded rows. */
  lemma ReportItems(sha: string -> string, inv: Invocation, src: Source)
    requires Builds(sha, inv, src)
    ensures src.report.lineItems == ReportLaws.ItemsV1(src.rows) == LineItems(Input(src))
    ensures src.report.inputHash == sha(Fingerprint.CanonicalText(src.rows)) && src.report.inputCount == |src.rows|
  {
    hide Rules.Run, LineItems, Fingerprint.CanonicalText, Rules.RuleSetText;
    ReportLaws.RunV1(src.rows, src.clocks.perTransaction);
  }

  /** The facts the invariant holds about a completed run and its source. */
  lemma Completion(sha: string -> string, s: State, id: RunId) returns (src: Source)
    requires Reachable(sha, s) && id in s.db.runs && s.db.runs[id].status == Completed
    ensures id in s.sources && src == s.sources[id] && FromSnapshot(s.db, s.db.runs[id].period, src)
    ensures RowsOf(s.db.items, id) == Map(LineItems(Input(src)), StoreItem())
    ensures AggregationLaws.RowsFit(LineItems(Input(src))) && |src.rows| < Decimals.COUNT_LIMIT
    ensures s.db.runs[id].inputHash == sha(Fingerprint.CanonicalText(src.rows)) && s.db.runs[id].count == |src.rows|
    ensures AggregationLaws.Exact(Input(src))
  {
    hide Reachable, Local, FromSnapshot, AggregationLaws.RowsFit, UniqueEmails, NoRows, RunOk, LineItems, Builds,
         Fingerprint.CanonicalText, ReportLaws.ItemsV1, StoreItem;
    ReachableInv(sha, s);
    ProtocolLaws.CompletedBy(sha, s, id);
    src := s.sources[id];
    ReportItems(sha, s.invs[s.owner[id]], src);
    LoadedInColumn(s, s.invs[s.owner[id]].period, src);
    ReportLaws.ExactV1(src.rows);
  }

  /**
   The total a committed report shows for a category and currency is, to the cent, the sum of
   the loaded transactions; minimum, maximum and count are exact; the stored average lies between
   the stored minimum and maximum.
   */
  lemma CommittedValuesAreExact(sha: string -> string, s: State, id: RunId, i: nat)
    requires Reachable(sha, s) && id in s.db.runs && s.db.runs[id].status == Completed && id in s.sources
    requires i < |SortedKeys(Input(s.sources[id]))|
    ensures var cs, rows := Input(s.sources[id]), RowsOf(s.db.items, id);
            var k := SortedKeys(cs)[i];
            && |rows| == 5 * |SortedKeys(cs)| && Group(cs, k) != []
            && (forall j :: 0 <= j < 5 ==>
                 rows[5 * i + j].key == k && rows[5 * i + j].metric == METRICS[j]
                 && rows[5 * i + j].count == |Group(cs, k)| && rows[5 * i + j].sourceIds == Ids(Group(cs, k)))
            && rows[5 * i].value == 100 * AggregationLaws.GroupTotal(cs, k)
            && rows[5 * i + 2].value == 100 * Min(Amounts(Group(cs, k)))
            && rows[5 * i + 3].value == 100 * Max(Amounts(Group(cs, k)))
            && rows[5 * i + 2].value <= rows[5 * i + 1].value <= rows[5 * i + 3].value
            && rows[5 * i + 4].value == 10000 * |Group(cs, k)|
  {
    hide *;
    var src := Completion(sha, s, id);
    var cs := Input(src);
    AggregationLaws.MetricNames();
    AggregationLaws.LineItemCount(cs);
    GroupPresent(cs, i);
    forall j | 0 <= j < 5
      ensures var row := RowsOf(s.db.items, id)[5 * i + j];
              && row.key == SortedKeys(cs)[i] && row.metric == METRICS[j]
              && row.count == |Group(cs, SortedKeys(cs)[i])| && row.sourceIds == Ids(Group(cs, SortedKeys(cs)[i]))
              && row.value == Decimals.Stored(LineItems(cs)[5 * i + j].value)
    {
      AggregationLaws.ReportLayout(cs, i, j);
      StoreAt(LineItems(cs), 5 * i + j);
    }
    assert RowsOf(s.db.items, id)[5 * i].value == Decimals.Stored(LineItems(cs)[5 * i].value) by {
      StoreAt(LineItems(cs), 5 * i);
    }
    StoredValues(cs, i);
  }

  lemma GroupPresent(cs: seq<Classified>, i: nat)
    requires i < |SortedKeys(cs)|
    ensures Group(cs, SortedKeys(cs)[i]) != []
  {
    hide Group, SortedKeys;
    SortedKeysPresent(cs);
  }

  lemma StoreAt(items: seq<LineItem>, r: nat)
    requires r < |items|
    ensures var row := Map(items, StoreItem())[r];
            && row.key == items[r].key && row.metric == items[r].metric && row.count == items[r].count
            && row.sourceIds == items[r].sourceIds && row.value == Decimals.Stored(items[r].value)
  {
    hide Decimals.Stored;
  }

  /** The stored form of a group's five values. */
  lemma StoredValues(cs: seq<Classified>, i: nat)
    requires AggregationLaws.Exact(cs) && i < |SortedKeys(cs)| && |LineItems(cs)| == 5 * |SortedKeys(cs)|
    requires Group(cs, SortedKeys(cs)[i]) != []
    ensures var g, items := Group(cs, SortedKeys(cs)[i]), LineItems(cs);
            && Decimals.Stored(items[5 * i].value) == 100 * AggregationLaws.GroupTotal(cs, SortedKeys(cs)[i])
            && Decimals.Stored(items[5 * i + 2].value) == 100 * Min(Amounts(g))
            && Decimals.Stored(items[5 * i + 3].value) == 100 * Max(Amounts(g))
            && Decimals.Stored(items[5 * i + 4].value) == 10000 * |g|
            && Decimals.Stored(items[5 * i + 2].value) <= Decimals.Stored(items[5 * i + 1].value)
                 <= Decimals.Stored(items[5 * i + 3].value)
  {
    hide *;
    var k := SortedKeys(cs)[i];
    var g := Group(cs, k);
    AggregationLaws.ExactGroup(cs, k);
    AggregationLaws.MetricNames();
    forall j | 0 <= j < 5
      ensures LineItems(cs)[5 * i + j].value == ValueOf(Summarize(k, g), METRICS[j])
    {
      AggregationLaws.RowIs(cs, i, j);
      AggregationLaws.ItemValue(Summarize(k, g), METRICS[j]);
    }
    SummaryValues(k, g);
    AggregationLaws.TotalIsSum(cs, k);
  }

  lemma SummaryValues(k: Key, g: seq<Classified>)
    requires g != [] && AggregationLaws.Exact(g)
    ensures var s := Summarize(k, g);
            && Decimals.Stored(ValueOf(s, TotalAmount)) == 100 * Sum(Amounts(g))
            && Decimals.Stored(ValueOf(s, MinAmount)) == 100 * Min(Amounts(g))
            && Decimals.Stored(ValueOf(s, MaxAmount)) == 100 * Max(Amounts(g))
            && Decimals.Stored(ValueOf(s, TransactionCount)) == 10000 * |g|
            && Decimals.Stored(ValueOf(s, MinAmount)) <= Decimals.Stored(ValueOf(s, AverageAmount))
                 <= Decimals.Stored(ValueOf(s, MaxAmount))
  {
    hide Decimals.Stored, Decimals.Average, Decimals.Accumulate, Min, Max, Amounts, Sum, AggregationLaws.Exact,
         Ids, Decimals.Round;
    var s := Summarize(k, g);
    AggregationLaws.ValuesAreExact(k, g);
    Decimals.StoredCents(s.total, Sum(Amounts(g)));
    Decimals.CentsEqual(s.min);
    Decimals.CentsEqual(s.max);
    AggregationLaws.AverageIsBetween(k, g);
    CountStoresExactly(|g|);
  }

  lemma CountStoresExactly(n: nat)
    ensures Decimals.Stored(Decimals.Decimal(n, 0)) == 10000 * n
  {
    var x := Decimals.Decimal(n, 0);
    assert Decimals.Num(x) == n && Decimals.Den(x) == 1;
    Decimals.StoredIsClose(x);
  }

  /** What has to hold of loaded rows for their report to be storable. */
  ghost predicate Fitting(rows: seq<Transaction>) {
    |rows| < 0x8000_0000 && AggregationLaws.TotalsInColumn(Map(rows, ReportLaws.ClassifyV1()))
  }

  lemma ReportFitsIffFitting(sha: string -> string, s: State, inv: Invocation, src: Source)
    requires Builds(sha, inv, src) && FromSnapshot(s.db, inv.period, src) && AllStorable(s.db.transactions)
    ensures ReportFits(src.report) <==> Fitting(src.rows)
  {
    hide LineItems, Builds, AggregationLaws.RowsFit, AggregationLaws.TotalsInColumn, AggregationLaws.GroupsCountable,
         ReportLaws.ItemsV1, FromSnapshot, AggregationLaws.Exact, ReportLaws.ClassifyV1;
    ReportItems(sha, inv, src);
    if |src.rows| < Decimals.COUNT_LIMIT {
      LoadedInColumn(s, inv.period, src);
      ReportLaws.ExactV1(src.rows);
      AggregationLaws.ReportFitsIff(Input(src));
      AggregationLaws.SmallInputsAreCountable(Input(src));
    }
  }

  /**
   At the point of completion the flush succeeds exactly if fewer than 2^31 rows were loaded and
   every group's total is below 10^16; any other period can never be completed.
   */
  lemma CompletesIffFitting(sha: string -> string, s: State, i: nat)
    requires Reachable(sha, s) && In(s, i) && s.invs[i].phase.Built?
    ensures CanComplete(s, i) <==> Fitting(s.invs[i].phase.source.rows)
  {
    hide Reachable, CheckedBefore, RunOk, NoRows, UniqueEmails, LineItems, Builds, ReportFits, Fitting,
         ReportLaws.ItemsV1, FromSnapshot, ItemRows;
    ReachableInv(sha, s);
    assert Local(sha, s, i);
    ReportFitsIffFitting(sha, s, s.invs[i], s.invs[i].phase.source);
  }

  /** So every completed report has fewer than 2^31 rows and all its totals below 10^16. */
  lemma CompletedTotalsFit(sha: string -> string, s: State, id: RunId)
    requires Reachable(sha, s) && id in s.db.runs && s.db.runs[id].status == Completed && id in s.sources
    ensures |s.sources[id].rows| < Decimals.COUNT_LIMIT
    ensures AggregationLaws.TotalsInColumn(Input(s.sources[id]))
  {
    hide Reachable, LineItems, AggregationLaws.RowsFit, AggregationLaws.TotalsInColumn, FromSnapshot,
         AggregationLaws.Exact;
    var src := Completion(sha, s, id);
    AggregationLaws.ReportFitsIff(Input(src));
  }

  // ---- Committed months add up ----

  /** The total, in ten-thousandths, that stored rows show for a key; zero when they show none. */
  function StoredTotal(rows: seq<ItemRow>, k: Key): int {
    if rows == [] then 0
    else if rows[0].key == k && rows[0].metric == TotalAmount then rows[0].value
    else StoredTotal(rows[1..], k)
  }

  function StoredCount(rows: seq<ItemRow>, k: Key): nat {
    if rows == [] then 0
    else if rows[0].key == k && rows[0].metric == TotalAmount then rows[0].count
    else StoredCount(rows[1..], k)
  }

  /** Every total row holds a whole number of cents. */
  ghost predicate WholeCents(items: seq<LineItem>) {
    forall r :: 0 <= r < |items| && items[r].metric == TotalAmount ==> HasCents(items[r])
  }

  ghost predicate HasCents(item: LineItem) {
    exists cents :: Decimals.Equals(item.value, cents, 100)
  }

  lemma CentsShown(item: LineItem)
    requires HasCents(item)
    ensures Decimals.Stored(item.value) == 100 * (Decimals.Num(item.value) * 100 / Decimals.Den(item.value))
  {
    hide Decimals.Stored;
    var cents :| Decimals.Equals(item.value, cents, 100);
    Decimals.StoredCents(item.value, cents);
    ReportLaws.QuotientExact(item.value, cents);
  }

  lemma {:induction false} StoredFollowsReport(items: seq<LineItem>, k: Key)
    requires WholeCents(items)
    ensures StoredTotal(Map(items, StoreItem()), k) == 100 * ReportLaws.ReportedCents(items, k)
    ensures StoredCount(Map(items, StoreItem()), k) == ReportLaws.ReportedCount(items, k)
  {
    hide Decimals.Stored, Decimals.Num, Decimals.Den, HasCents;
    if items != [] {
      StoredFollowsReport(items[1..], k);
      assert Map(items, StoreItem())[1..] == Map(items[1..], StoreItem());
      if items[0].metric == TotalAmount {
        CentsShown(items[0]);
      }
    }
  }

  lemma ReportsHoldWholeCents(cs: seq<Classified>)
    requires AggregationLaws.Exact(cs)
    ensures WholeCents(LineItems(cs))
  {
    hide *;
    AggregationLaws.LineItemCount(cs);
    AggregationLaws.MetricNames();
    var items := LineItems(cs);
    forall r | 0 <= r < |items| && items[r].metric == TotalAmount
      ensures HasCents(items[r])
    {
      AggregationLaws.ReportLayout(cs, r / 5, r % 5);
      assert r == 5 * (r / 5) + r % 5;
      TotalRowHasCents(cs, r / 5);
    }
    WholeCentsFrom(items);
  }

  lemma WholeCentsFrom(items: seq<LineItem>)
    requires forall r :: 0 <= r < |items| && items[r].metric == TotalAmount ==> HasCents(items[r])
    ensures WholeCents(items)
  {
    hide HasCents;
  }

  lemma TotalRowHasCents(cs: seq<Classified>, i: nat)
    requires AggregationLaws.Exact(cs) && i < |SortedKeys(cs)| && |LineItems(cs)| == 5 * |SortedKeys(cs)|
    ensures HasCents(LineItems(cs)[5 * i])
  {
    hide LineItems, Decimals.Equals, AggregationLaws.Exact, Group, SortedKeys, Summarize, Amounts, Sum;
    var k := SortedKeys(cs)[i];
    ReportLaws.TotalRow(cs, i);
    AggregationLaws.ExactGroup(cs, k);
    ReportLaws.TotalIsExact(k, Group(cs, k));
  }

  /** What a committed run shows for a key. */
  function Shown(s: State, id: RunId, k: Key): int {
    StoredTotal(RowsOf(s.db.items, id), k)
  }

  function ShownCount(s: State, id: RunId, k: Key): nat {
    StoredCount(RowsOf(s.db.items, id), k)
  }

  function ShownTogether(s: State, ids: seq<RunId>, k: Key): int {
    if ids == [] then 0 else ShownTogether(s, ids[..|ids| - 1], k) + Shown(s, ids[|ids| - 1], k)
  }

  function CountTogether(s: State, ids: seq<RunId>, k: Key): nat {
    if ids == [] then 0 else CountTogether(s, ids[..|ids| - 1], k) + ShownCount(s, ids[|ids| - 1], k)
  }

  /** A completed run of the period, built when exactly `upTo` transactions were stored. */
  ghost predicate CompletedAt(s: State, id: RunId, period: Calendar.Period, upTo: nat) {
    && id in s.db.runs && s.db.runs[id].status == Completed && s.db.runs[id].period == period
    && id in s.sources && s.sources[id].upTo == upTo
  }

  lemma ShownIsReported(sha: string -> string, s: State, id: RunId, period: Calendar.Period, upTo: nat, k: Key)
    requires Reachable(sha, s) && CompletedAt(s, id, period, upTo)
    ensures upTo <= |s.db.transactions| && |s.sources[id].rows| < Decimals.COUNT_LIMIT
    ensures var rows := s.sources[id].rows;
            && ReportLaws.ListForPeriod(s.db.transactions[..upTo], Calendar.Window(period), rows)
            && Shown(s, id, k) == 100 * ReportLaws.ReportedCents(ReportLaws.ItemsV1(rows), k)
            && ShownCount(s, id, k) == ReportLaws.ReportedCount(ReportLaws.ItemsV1(rows), k)
  {
    hide Reachable, ReportLaws.ListForPeriod, AggregationLaws.RowsFit, WholeCents, StoredTotal, StoredCount,
         ReportLaws.ReportedCents, ReportLaws.ReportedCount,
         AggregationLaws.Exact, StoreItem, ReportLaws.ClassifyV1, LineItems;
    var src := Completion(sha, s, id);
    ReportsHoldWholeCents(Input(src));
    StoredFollowsReport(LineItems(Input(src)), k);
  }

  lemma {:induction false} TogetherIsSum(
    sha: string -> string, s: State, ids: seq<RunId>, periods: seq<Calendar.Period>, upTo: nat, k: Key,
    loads: seq<seq<Transaction>>)
    requires Reachable(sha, s) && |ids| == |periods| == |loads|
    requires forall i :: 0 <= i < |ids| ==> CompletedAt(s, ids[i], periods[i], upTo) && loads[i] == s.sources[ids[i]].rows
    ensures ShownTogether(s, ids, k) == 100 * ReportLaws.CentsOverMonths(loads, k)
    ensures CountTogether(s, ids, k) == ReportLaws.CountOverMonths(loads, k)
    decreases |ids|
  {
    hide Reachable, ReportLaws.ReportedCents, ReportLaws.ReportedCount, ReportLaws.ItemsV1, Shown, ShownCount,
         ReportLaws.ListForPeriod;
    if ids != [] {
      var n := |ids| - 1;
      ShownIsReported(sha, s, ids[n], periods[n], upTo, k);
      TogetherIsSum(sha, s, ids[..n], periods[..n], upTo, k, loads[..n]);
    }
  }

  /** The runs' periods are those of one firing in each of consecutive months. */
  ghost predicate FiredMonthly(refs: seq<Calendar.Date>, month: nat, periods: seq<Calendar.Period>) {
    && refs != [] && |periods| == |refs| && Calendar.ConsecutiveMonths(refs, month)
    && forall i :: 0 <= i < |refs| ==> Calendar.PreviousMonthPeriod(refs[i]) == Some(periods[i])
  }

  /**
   From table to table: the totals and counts that completed monthly runs show for a category and
   currency sum to what one completed run over the whole span shows, if all were built on the same stored
   transactions, whatever order the database returned them in.
   */
  lemma CommittedMonthsAddUp(
    sha: string -> string, s: State, refs: seq<Calendar.Date>, month: nat, periods: seq<Calendar.Period>,
    ids: seq<RunId>, whole: RunId, upTo: nat, k: Key)
    requires Reachable(sha, s) && FiredMonthly(refs, month, periods) && |ids| == |periods|
    requires forall i :: 0 <= i < |ids| ==> CompletedAt(s, ids[i], periods[i], upTo)
    requires CompletedAt(s, whole, Calendar.Period(periods[0].first, periods[|periods| - 1].last), upTo)
    ensures Shown(s, whole, k) == ShownTogether(s, ids, k)
    ensures ShownCount(s, whole, k) == CountTogether(s, ids, k)
  {
    hide Reachable, ReportLaws.ReportedCents, ReportLaws.ReportedCount, ReportLaws.ItemsV1, Shown, ShownTogether,
         ShownCount, CountTogether, ReportLaws.ListForPeriod, ReportLaws.CountOverMonths,
         ReportLaws.CentsOverMonths, Calendar.PreviousMonthPeriod, Calendar.Instant;
    var loads := seq(|ids|, i requires 0 <= i < |ids| => s.sources[ids[i]].rows);
    var ws := seq(|ids|, i requires 0 <= i < |ids| => Calendar.Window(periods[i]));
    var all := Calendar.Period(periods[0].first, periods[|periods| - 1].last);
    ShownIsReported(sha, s, whole, all, upTo, k);
    TogetherIsSum(sha, s, ids, periods, upTo, k, loads);
    forall i | 0 <= i < |ids|
      ensures ReportLaws.ListForPeriod(s.db.transactions[..upTo], ws[i], loads[i])
    {
      ShownIsReported(sha, s, ids[i], periods[i], upTo, k);
    }
    StoreInColumn(sha, s, upTo);
    ReportLaws.MonthlyReportsAddUp(s.db.transactions[..upTo], refs, month, ws, loads, s.sources[whole].rows, k);
  }

  lemma StoreInColumn(sha: string -> string, s: State, upTo: nat)
    requires Reachable(sha, s) && upTo <= |s.db.transactions|
    ensures ReportLaws.InColumns(s.db.transactions[..upTo])
  {
    hide Reachable, Local, RunOk, NoRows, UniqueEmails;
    ReachableInv(sha, s);
    forall t | t in s.db.transactions[..upTo]
      ensures Decimals.InColumn(t.cents)
    {
      assert t in s.db.transactions;
      assert Storable(t);
    }
  }
}
