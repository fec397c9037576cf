/**
 What a report promises about its line items: layout, traceability, exact and bounded values,
 what the database column keeps of them, and how reports combine.
 */
module AggregationLaws {
  import opened Base
  import opened Decimals
  import opened Transactions
  import opened Aggregation
  import Strings

  // ---- Layout ----

  lemma {:induction false} FlattenAt(ss: seq<Summary>, i: nat, j: nat)
    requires i < |ss| && j < 5
    ensures Flatten(ss)[5 * i + j] == ItemOf(ss[i], METRICS[j])
  {
    if i < |ss| - 1 {
      FlattenAt(ss[..|ss| - 1], i, j);
    }
  }

  /** Five rows per occurring key, keys increasing, metrics in their fixed order. */
  lemma ReportLayout(cs: seq<Classified>, i: nat, j: nat)
    requires i < |SortedKeys(cs)| && j < 5
    ensures |LineItems(cs)| == 5 * |SortedKeys(cs)| && 5 * i + j < |LineItems(cs)|
    ensures var k := SortedKeys(cs)[i];
            var row := LineItems(cs)[5 * i + j];
            && row.key == k && row.metric == METRICS[j]
            && row.count == |Group(cs, k)| > 0 && row.sourceIds == Ids(Group(cs, k))
  {
    FlattenAt(Summaries(cs), i, j);
    SortedKeysPresent(cs);
  }

  /** Keys in the order of Python's tuples: by category, then by currency, both by code points. */
  ghost predicate ComesBefore(a: Key, b: Key) {
    || Strings.CodePointLess(a.category, b.category)
    || (a.category == b.category && Strings.CodePointLess(a.currency, b.currency))
  }

  lemma KeyLessMeaning(a: Key, b: Key)
    ensures KeyLess(a, b) <==> ComesBefore(a, b)
  {
    hide Strings.StringLe, Strings.CodePointLe;
    Strings.StringLeMeaning(a.category, b.category);
    Strings.StringLeMeaning(a.currency, b.currency);
  }

  /** The groups of a report follow each other by category text and then by currency. */
  lemma GroupsInOrder(cs: seq<Classified>, r: nat, s: nat)
    requires r < s < |LineItems(cs)|
    ensures LineItems(cs)[r].key == LineItems(cs)[s].key || ComesBefore(LineItems(cs)[r].key, LineItems(cs)[s].key)
    ensures LineItems(cs)[r].key == LineItems(cs)[s].key <==> r / 5 == s / 5
  {
    hide LineItems, SortedKeys, Group, KeyLess, ComesBefore;
    LineItemCount(cs);
    SortedKeysAreTheKeys(cs);
    ReportLayout(cs, r / 5, r % 5);
    ReportLayout(cs, s / 5, s % 5);
    assert r == 5 * (r / 5) + r % 5 && s == 5 * (s / 5) + s % 5;
    if r / 5 != s / 5 {
      var a, b := SortedKeys(cs)[r / 5], SortedKeys(cs)[s / 5];
      assert KeyLess(a, b);
      KeyLessMeaning(a, b);
      KeyOrder(a, b);
      LessIsDistinct(a, b);
    }
  }

  lemma LessIsDistinct(a: Key, b: Key)
    requires KeyLess(a, b)
    ensures a != b
  {
  }

  /** The categories in the order reports list them. */
  const REPORT_ORDER :=
    [Fee, HighValue, InternalTransfer, Refund, RetailPayment, Suspicious, Unclassified, WireTransfer]

  lemma FirstLetters()
    ensures forall c :: CategoryText(c) != ""
    ensures CategoryText(Fee)[0] == 'f' && CategoryText(HighValue)[0] == 'h' && CategoryText(InternalTransfer)[0] == 'i'
    ensures CategoryText(Refund)[0] == 'r' == CategoryText(RetailPayment)[0] && CategoryText(Suspicious)[0] == 's'
    ensures CategoryText(Unclassified)[0] == 'u' && CategoryText(WireTransfer)[0] == 'w'
  {
  }

  lemma RefundFirst()
    ensures Strings.CodePointLess(CategoryText(Refund), CategoryText(RetailPayment))
  {
    var a, b := CategoryText(Refund), CategoryText(RetailPayment);
    assert a == "refund" && b == "retail_payment";
    assert a[..2] == b[..2] && a[2] < b[2];
  }

  lemma CategoriesInOrder(i: nat, j: nat)
    requires i < j < |REPORT_ORDER|
    ensures Strings.CodePointLess(CategoryText(REPORT_ORDER[i]), CategoryText(REPORT_ORDER[j]))
  {
    hide Strings.CodePointLe, CategoryText;
    FirstLetters();
    var a, b := CategoryText(REPORT_ORDER[i]), CategoryText(REPORT_ORDER[j]);
    if a[0] == b[0] {
      RefundFirst();
    } else {
      Strings.CodePointLeHeads(a, b);
    }
  }

  // ---- Traceability ----

  /** The source ids listed by all rows of one metric. */
  function CollectIds(items: seq<LineItem>, m: Metric): seq<string> {
    if items == [] then []
    else (if items[0].metric == m then items[0].sourceIds else []) + CollectIds(items[1..], m)
  }

  function CollectCounts(items: seq<LineItem>, m: Metric): nat {
    if items == [] then 0
    else (if items[0].metric == m then items[0].count else 0) + CollectCounts(items[1..], m)
  }

  lemma {:induction false} CollectConcat(a: seq<LineItem>, b: seq<LineItem>, m: Metric)
    ensures CollectIds(a + b, m) == CollectIds(a, m) + CollectIds(b, m)
    ensures CollectCounts(a + b, m) == CollectCounts(a, m) + CollectCounts(b, m)
  {
    if a == [] {
      assert a + b == b;
    } else {
      assert (a + b)[1..] == a[1..] + b;
      CollectConcat(a[1..], b, m);
    }
  }

  /** Each metric contributes one row of a group. */
  lemma CollectOne(s: Summary, m: Metric)
    ensures CollectIds(ItemsFor(s, METRICS), m) == s.ids
    ensures CollectCounts(ItemsFor(s, METRICS), m) == s.count
  {
    hide CollectIds, CollectCounts, METRICS, ItemsFor;
    MetricNames();
    var rows := ItemsFor(s, METRICS);
    CollectFrom(rows, 0, m);
    CollectFrom(rows, 1, m);
    CollectFrom(rows, 2, m);
    CollectFrom(rows, 3, m);
    CollectFrom(rows, 4, m);
    CollectNothing(m);
    assert rows[5..] == [] && rows[0..] == rows;
  }

  lemma CollectNothing(m: Metric)
    ensures CollectIds([], m) == [] && CollectCounts([], m) == 0
  {
  }

  lemma CollectFrom(rows: seq<LineItem>, k: nat, m: Metric)
    requires k < |rows|
    ensures CollectIds(rows[k..], m)
            == (if rows[k].metric == m then rows[k].sourceIds else []) + CollectIds(rows[k + 1..], m)
    ensures CollectCounts(rows[k..], m)
            == (if rows[k].metric == m then rows[k].count else 0) + CollectCounts(rows[k + 1..], m)
  {
    assert rows[k..][1..] == rows[k + 1..];
  }

  /** The transactions group by group. */
  ghost function Regrouped(cs: seq<Classified>, keys: seq<Key>): seq<Classified> {
    if keys == [] then [] else Regrouped(cs, keys[..|keys| - 1]) + Group(cs, keys[|keys| - 1])
  }

  lemma SummaryTraces(k: Key, g: seq<Classified>)
    requires g != []
    ensures Summarize(k, g).ids == Ids(g) && Summarize(k, g).count == |g|
  {
    hide Accumulate, Average, Min, Max;
  }

  lemma {:induction false} CollectFlatten(cs: seq<Classified>, keys: seq<Key>, m: Metric)
    requires Present(keys, cs)
    ensures CollectIds(Flatten(SummariesFor(keys, cs)), m) == Ids(Regrouped(cs, keys))
    ensures CollectCounts(Flatten(SummariesFor(keys, cs)), m) == |Regrouped(cs, keys)|
  {
    hide Summarize, Group;
    if keys != [] {
      var n := |keys| - 1;
      var ss, k := SummariesFor(keys, cs), keys[n];
      assert ss[..n] == SummariesFor(keys[..n], cs);
      CollectFlatten(cs, keys[..n], m);
      CollectConcat(Flatten(ss[..n]), ItemsFor(ss[n], METRICS), m);
      CollectOne(ss[n], m);
      SummaryTraces(k, Group(cs, k));
      MapConcat(Regrouped(cs, keys[..n]), Group(cs, k), IdOf());
    }
  }

  lemma {:induction false} RegroupedCount(cs: seq<Classified>, keys: seq<Key>, c: Classified)
    requires StrictlySorted(keys)
    ensures multiset(Regrouped(cs, keys))[c] == if KeyOf(c) in keys then multiset(cs)[c] else 0
  {
    if keys != [] {
      var n := |keys| - 1;
      RegroupedCount(cs, keys[..n], c);
      FilterMultiset(cs, WithKey(keys[n]), c);
      assert keys == keys[..n] + [keys[n]];
      if KeyOf(c) in keys[..n] {
        var i :| 0 <= i < n && keys[i] == KeyOf(c);
        assert KeyLess(keys[i], keys[n]);
      }
    }
  }

  /** Regrouping loses no transaction and repeats none. */
  lemma RegroupedPermutes(cs: seq<Classified>)
    ensures multiset(Regrouped(cs, SortedKeys(cs))) == multiset(cs)
  {
    SortedKeysAreTheKeys(cs);
    forall c
      ensures multiset(Regrouped(cs, SortedKeys(cs)))[c] == multiset(cs)[c]
    {
      RegroupedCount(cs, SortedKeys(cs), c);
      if c in cs {
        var i :| 0 <= i < |cs| && cs[i] == c;
        assert HasKeyIn(cs, KeyOf(c));
      } else {
        assert c !in multiset(cs);
      }
    }
  }

  /**
   Every number is traceable and every transaction is accounted for once: over the rows of any
   one metric, the source ids are the input's ids and the counts add up to the input's length.
   */
  lemma NothingLostNothingTwice(cs: seq<Classified>, m: Metric)
    ensures multiset(CollectIds(LineItems(cs), m)) == multiset(Ids(cs))
    ensures CollectCounts(LineItems(cs), m) == |cs|
  {
    SortedKeysPresent(cs);
    CollectFlatten(cs, SortedKeys(cs), m);
    RegroupedPermutes(cs);
    MapPermutes(Regrouped(cs, SortedKeys(cs)), cs, IdOf());
    PermutedLength(Regrouped(cs, SortedKeys(cs)), cs);
  }

  // ---- Values ----

  /** Amounts come from their column, and there are few enough of them for exact sums. */
  ghost predicate Exact(cs: seq<Classified>) {
    |cs| <= EXACT_COUNT && forall c :: c in cs ==> InColumn(c.transaction.cents)
  }

  /** The group's total, in cents, by integer arithmetic. */
  function GroupTotal(cs: seq<Classified>, k: Key): int {
    Sum(Amounts(Group(cs, k)))
  }

  lemma ExactAmounts(cs: seq<Classified>)
    requires Exact(cs)
    ensures AllInColumn(Amounts(cs))
  {
    forall i | 0 <= i < |cs|
      ensures InColumn(Amounts(cs)[i])
    {
      assert cs[i] in cs;
    }
  }

  lemma ExactGroup(cs: seq<Classified>, k: Key)
    requires Exact(cs)
    ensures Exact(Group(cs, k))
  {
  }

  lemma {:induction false} SumBetween(xs: seq<int>, lo: int, hi: int)
    requires forall i :: 0 <= i < |xs| ==> lo <= xs[i] <= hi
    ensures lo * |xs| <= Sum(xs) <= hi * |xs|
  {
    if xs != [] {
      SumBetween(xs[1..], lo, hi);
      assert lo * |xs| == lo * (|xs| - 1) + lo && hi * |xs| == hi * (|xs| - 1) + hi;
    }
  }

  /** The values of a group are those of exact arithmetic, each rounded once. */
  lemma ValuesAreExact(k: Key, g: seq<Classified>)
    requires g != [] && Exact(g)
    ensures var s, cents := Summarize(k, g), Sum(Amounts(g));
            && s.total == Round(cents, 100) && Equals(s.total, cents, 100)
            && s.average == Round(cents, 100 * |g|)
            && s.min * |g| <= cents <= s.max * |g|
  {
    ExactAmounts(g);
    SumIsExact(Amounts(g));
    AverageRatio(Summarize(k, g).total, Sum(Amounts(g)), |g|);
    SumBetween(Amounts(g), Min(Amounts(g)), Max(Amounts(g)));
  }

  /** minimum <= average <= maximum, for the computed values and for the stored ones. */
  lemma AverageIsBetween(k: Key, g: seq<Classified>)
    requires g != [] && Exact(g)
    ensures var s := Summarize(k, g);
            && Le(Cents(s.min), s.average) && Le(s.average, Cents(s.max))
            && Stored(Cents(s.min)) <= Stored(s.average) <= Stored(Cents(s.max))
  {
    ValuesAreExact(k, g);
    ExactAmounts(g);
    Decimals.AverageIsBetween(Sum(Amounts(g)), |g|, Min(Amounts(g)), Max(Amounts(g)));
  }

  // ---- Storing a report ----

  /** Value and count of a row fit their columns. */
  predicate RowFits(item: LineItem) {
    FitsColumn(item.value) && item.count < COUNT_LIMIT
  }

  predicate RowsFit(items: seq<LineItem>) {
    forall i :: 0 <= i < |items| ==> RowFits(items[i])
  }

  /** Of a group's five values only the total can overflow its column. */
  lemma GroupFitsIff(k: Key, g: seq<Classified>)
    requires g != [] && Exact(g)
    ensures FitsColumn(Summarize(k, g).total) <==> InColumn(Sum(Amounts(g)))
    ensures forall m :: m != TotalAmount ==> FitsColumn(ValueOf(Summarize(k, g), m))
  {
    var s := Summarize(k, g);
    ValuesAreExact(k, g);
    StoredCents(s.total, Sum(Amounts(g)));
    ExactAmounts(g);
    CentsEqual(s.min);
    CentsEqual(s.max);
    AverageIsBetween(k, g);
    CountFits(s.count);
  }

  lemma CountFits(n: nat)
    requires n <= EXACT_COUNT
    ensures FitsColumn(Decimal(n, 0))
  {
    var d := Decimal(n, 0);
    assert Strings.Pow10(0) == 1;
    assert Num(d) == n && Den(d) == 1;
    StoredIsClose(d);
  }

  /** Any row of the report, by group and metric. */
  lemma RowIs(cs: seq<Classified>, i: nat, j: nat)
    requires i < |SortedKeys(cs)| && j < 5
    ensures |LineItems(cs)| == 5 * |SortedKeys(cs)| && Group(cs, SortedKeys(cs)[i]) != []
    ensures LineItems(cs)[5 * i + j] == ItemOf(Summarize(SortedKeys(cs)[i], Group(cs, SortedKeys(cs)[i])), METRICS[j])
  {
    hide Flatten, Group, SortedKeys, Summarize, ItemOf;
    SortedKeysPresent(cs);
    FlattenAt(Summaries(cs), i, j);
  }

  lemma MetricNames()
    ensures |METRICS| == 5 && METRICS[0] == TotalAmount && METRICS[1] == AverageAmount && METRICS[2] == MinAmount
    ensures METRICS[3] == MaxAmount && METRICS[4] == TransactionCount
  {
  }

  lemma ItemValue(s: Summary, m: Metric)
    ensures ItemOf(s, m).value == ValueOf(s, m) && ValueOf(s, TotalAmount) == s.total
  {
  }

  lemma RowFitsIff(cs: seq<Classified>, i: nat, j: nat)
    requires Exact(cs) && i < |SortedKeys(cs)| && j < 5 && |LineItems(cs)| == 5 * |SortedKeys(cs)|
    ensures RowFits(LineItems(cs)[5 * i + j])
            <==> (j != 0 || InColumn(GroupTotal(cs, SortedKeys(cs)[i]))) && |Group(cs, SortedKeys(cs)[i])| < COUNT_LIMIT
  {
    hide *;
    var k := SortedKeys(cs)[i];
    MetricNames();
    RowIs(cs, i, j);
    ReportLayout(cs, i, j);
    ExactGroup(cs, k);
    GroupFitsIff(k, Group(cs, k));
    ItemValue(Summarize(k, Group(cs, k)), METRICS[j]);
    TotalIsSum(cs, k);
    RowFitsMeaning(LineItems(cs)[5 * i + j]);
  }

  lemma RowFitsMeaning(item: LineItem)
    ensures RowFits(item) <==> FitsColumn(item.value) && item.count < COUNT_LIMIT
  {
  }

  lemma TotalIsSum(cs: seq<Classified>, k: Key)
    ensures GroupTotal(cs, k) == Sum(Amounts(Group(cs, k)))
  {
  }

  ghost predicate TotalsInColumn(cs: seq<Classified>) {
    forall i :: 0 <= i < |SortedKeys(cs)| ==> InColumn(GroupTotal(cs, SortedKeys(cs)[i]))
  }

  /** No group is too large for its count column. */
  ghost predicate GroupsCountable(cs: seq<Classified>) {
    forall i :: 0 <= i < |SortedKeys(cs)| ==> |Group(cs, SortedKeys(cs)[i])| < COUNT_LIMIT
  }

  lemma FittingRowsAreBounded(cs: seq<Classified>)
    requires Exact(cs) && RowsFit(LineItems(cs))
    ensures TotalsInColumn(cs) && GroupsCountable(cs)
  {
    hide LineItems, RowFits, GroupTotal, InColumn, SortedKeys, Group;
    LineItemCount(cs);
    forall i | 0 <= i < |SortedKeys(cs)|
      ensures InColumn(GroupTotal(cs, SortedKeys(cs)[i])) && |Group(cs, SortedKeys(cs)[i])| < COUNT_LIMIT
    {
      assert RowFits(LineItems(cs)[5 * i]);
      RowFitsIff(cs, i, 0);
    }
  }

  lemma BoundedGroupsMakeRowsFit(cs: seq<Classified>)
    requires Exact(cs) && TotalsInColumn(cs) && GroupsCountable(cs)
    ensures RowsFit(LineItems(cs))
  {
    hide LineItems, RowFits, GroupTotal, InColumn, SortedKeys, Group;
    LineItemCount(cs);
    forall r | 0 <= r < |LineItems(cs)|
      ensures RowFits(LineItems(cs)[r])
    {
      assert r == 5 * (r / 5) + r % 5;
      RowFitsIff(cs, r / 5, r % 5);
    }
  }

  lemma LineItemCount(cs: seq<Classified>)
    ensures |LineItems(cs)| == 5 * |SortedKeys(cs)|
  {
  }

  /** A report's rows can be stored exactly if every group has a total below 10^16 and a count below 2^31. */
  lemma ReportFitsIff(cs: seq<Classified>)
    requires Exact(cs)
    ensures RowsFit(LineItems(cs)) <==> TotalsInColumn(cs) && GroupsCountable(cs)
  {
    hide RowsFit, TotalsInColumn, GroupsCountable, LineItems;
    if RowsFit(LineItems(cs)) {
      FittingRowsAreBounded(cs);
    }
    if TotalsInColumn(cs) && GroupsCountable(cs) {
      BoundedGroupsMakeRowsFit(cs);
    }
  }

  /** An input that is countable as a whole has countable groups. */
  lemma SmallInputsAreCountable(cs: seq<Classified>)
    requires |cs| < COUNT_LIMIT
    ensures GroupsCountable(cs)
  {
    hide SortedKeys, WithKey;
  }

  // ---- Order of input ----

  lemma {:induction false} MinPermutes(xs: seq<int>, ys: seq<int>)
    requires xs != [] && multiset(xs) == multiset(ys)
    ensures ys != [] && Min(xs) == Min(ys) && Max(xs) == Max(ys)
  {
    PermutedLength(xs, ys);
    var i :| 0 <= i < |ys| && ys[i] == Min(xs);
    var j :| 0 <= j < |xs| && xs[j] == Min(ys);
    var m :| 0 <= m < |ys| && ys[m] == Max(xs);
    var n :| 0 <= n < |xs| && xs[n] == Max(ys);
  }

  /** The same group in another order: the same values, the same ids in another order. */
  ghost predicate SameButOrder(s: Summary, t: Summary) {
    s == t.(ids := s.ids) && multiset(s.ids) == multiset(t.ids)
  }

  lemma SummarizePermutes(k: Key, g: seq<Classified>, h: seq<Classified>)
    requires g != [] && Exact(g) && multiset(g) == multiset(h)
    ensures h != [] && SameButOrder(Summarize(k, g), Summarize(k, h))
  {
    PermutedLength(g, h);
    MapPermutes(g, h, CentsOf());
    MapPermutes(g, h, IdOf());
    SumPermutes(Amounts(g), Amounts(h));
    MinPermutes(Amounts(g), Amounts(h));
    ValuesAreExact(k, g);
    ValuesAreExact(k, h);
  }

  lemma SortedKeysPermute(cs: seq<Classified>, ds: seq<Classified>)
    requires multiset(cs) == multiset(ds)
    ensures SortedKeys(cs) == SortedKeys(ds)
  {
    PermutedLength(cs, ds);
    SortedKeysAreTheKeys(cs);
    SortedKeysAreTheKeys(ds);
    forall k
      ensures HasKeyIn(cs, k) <==> HasKeyIn(ds, k)
    {
      if HasKeyIn(cs, k) {
        var i :| 0 <= i < |cs| && KeyOf(cs[i]) == k;
        assert cs[i] in ds;
      }
      if HasKeyIn(ds, k) {
        var i :| 0 <= i < |ds| && KeyOf(ds[i]) == k;
        assert ds[i] in cs;
      }
    }
    StrictlySortedUnique(SortedKeys(cs), SortedKeys(ds));
  }

  lemma RowIgnoresOrder(cs: seq<Classified>, ds: seq<Classified>, i: nat, j: nat)
    requires Exact(cs) && multiset(cs) == multiset(ds)
    requires i < |SortedKeys(cs)| && j < 5 && |LineItems(ds)| == |LineItems(cs)|
    ensures SameRowButOrder(LineItems(cs)[5 * i + j], LineItems(ds)[5 * i + j])
  {
    hide *;
    var k := SortedKeys(cs)[i];
    MetricNames();
    SortedKeysPermute(cs, ds);
    RowIs(cs, i, j);
    RowIs(ds, i, j);
    GroupPermutes(cs, ds, k);
    ExactGroup(cs, k);
    SummarizePermutes(k, Group(cs, k), Group(ds, k));
    SameSummarySameItem(Summarize(k, Group(cs, k)), Summarize(k, Group(ds, k)), METRICS[j]);
  }

  lemma GroupPermutes(cs: seq<Classified>, ds: seq<Classified>, k: Key)
    requires multiset(cs) == multiset(ds)
    ensures multiset(Group(cs, k)) == multiset(Group(ds, k))
  {
    FilterPermutes(cs, ds, WithKey(k));
  }

  lemma SameSummarySameItem(s: Summary, t: Summary, m: Metric)
    requires SameButOrder(s, t)
    ensures SameRowButOrder(ItemOf(s, m), ItemOf(t, m))
  {
  }

  ghost predicate SameRowButOrder(a: LineItem, b: LineItem) {
    a == b.(sourceIds := a.sourceIds) && multiset(a.sourceIds) == multiset(b.sourceIds)
  }

  /** Reordering the input changes no number in the report. */
  lemma ReportIgnoresOrder(cs: seq<Classified>, ds: seq<Classified>)
    requires Exact(cs) && multiset(cs) == multiset(ds)
    ensures |LineItems(cs)| == |LineItems(ds)|
    ensures forall r :: 0 <= r < |LineItems(cs)| ==> SameRowButOrder(LineItems(cs)[r], LineItems(ds)[r])
  {
    hide Round, Accumulate, Min, Max, Map, Sum, Flatten;
    SortedKeysPermute(cs, ds);
    forall r | 0 <= r < |LineItems(cs)|
      ensures SameRowButOrder(LineItems(cs)[r], LineItems(ds)[r])
    {
      RowIgnoresOrder(cs, ds, r / 5, r % 5);
    }
  }

  // ---- What a report looks at ----

  datatype Entry = Entry(key: Key, cents: int, id: string)

  function EntryOf(): Classified -> Entry {
    (c: Classified) => Entry(KeyOf(c), c.transaction.cents, c.transaction.externalId)
  }

  lemma {:induction false} AlignedKeys(cs: seq<Classified>, ds: seq<Classified>)
    requires |cs| == |ds| && forall i :: 0 <= i < |cs| ==> EntryOf()(cs[i]) == EntryOf()(ds[i])
    ensures SortedKeys(cs) == SortedKeys(ds)
  {
    hide InsertKey, KeyOf;
    if cs != [] {
      assert EntryOf()(cs[0]) == EntryOf()(ds[0]);
      AlignedKeys(cs[1..], ds[1..]);
    }
  }

  lemma {:induction false} AlignedGroups(cs: seq<Classified>, ds: seq<Classified>, k: Key)
    requires |cs| == |ds| && forall i :: 0 <= i < |cs| ==> EntryOf()(cs[i]) == EntryOf()(ds[i])
    ensures Amounts(Group(cs, k)) == Amounts(Group(ds, k)) && Ids(Group(cs, k)) == Ids(Group(ds, k))
  {
    hide KeyOf;
    if cs != [] {
      AlignedGroups(cs[1..], ds[1..], k);
      assert EntryOf()(cs[0]) == EntryOf()(ds[0]);
      GroupCons(cs, k);
      GroupCons(ds, k);
    }
  }

  lemma GroupCons(cs: seq<Classified>, k: Key)
    requires cs != []
    ensures Amounts(Group(cs, k))
            == (if KeyOf(cs[0]) == k then [cs[0].transaction.cents] else []) + Amounts(Group(cs[1..], k))
    ensures Ids(Group(cs, k))
            == (if KeyOf(cs[0]) == k then [cs[0].transaction.externalId] else []) + Ids(Group(cs[1..], k))
  {
    hide KeyOf, Group;
    GroupStep(cs, k);
    if KeyOf(cs[0]) == k {
      var g := Group(cs[1..], k);
      MapConcat([cs[0]], g, CentsOf());
      MapConcat([cs[0]], g, IdOf());
      assert Amounts([cs[0]]) == [cs[0].transaction.cents] && Ids([cs[0]]) == [cs[0].transaction.externalId];
    }
  }

  lemma GroupStep(cs: seq<Classified>, k: Key)
    requires cs != []
    ensures Group(cs, k) == if KeyOf(cs[0]) == k then [cs[0]] + Group(cs[1..], k) else Group(cs[1..], k)
  {
    hide KeyOf;
    assert [] + Group(cs[1..], k) == Group(cs[1..], k);
  }

  /** Two inputs that agree on key, amount and id, position by position, give one report. */
  lemma AlignedReports(cs: seq<Classified>, ds: seq<Classified>)
    requires |cs| == |ds| && forall i :: 0 <= i < |cs| ==> EntryOf()(cs[i]) == EntryOf()(ds[i])
    ensures LineItems(cs) == LineItems(ds)
  {
    hide Flatten, Group, SortedKeys, EntryOf, Summarize;
    AlignedKeys(cs, ds);
    SortedKeysPresent(cs);
    SortedKeysPresent(ds);
    forall i | 0 <= i < |SortedKeys(cs)|
      ensures Summaries(cs)[i] == Summaries(ds)[i]
    {
      var k := SortedKeys(cs)[i];
      AlignedGroups(cs, ds, k);
      SummarizeAligned(k, Group(cs, k), Group(ds, k));
    }
    assert Summaries(cs) == Summaries(ds);
  }

  lemma SummarizeAligned(k: Key, g: seq<Classified>, h: seq<Classified>)
    requires g != [] && h != [] && Amounts(g) == Amounts(h) && Ids(g) == Ids(h)
    ensures Summarize(k, g) == Summarize(k, h)
  {
    hide Accumulate, Average, Min, Max;
    assert |g| == |Amounts(g)| == |h|;
  }

  // ---- Merging reports ----

  /** The group of two reports under one key. */
  function Combine(s: Summary, t: Summary): Summary
    requires s.count + t.count > 0
  {
    var total := Add(s.total, t.total);
    Summary(s.key, total, Average(total, s.count + t.count), if s.min <= t.min then s.min else t.min,
            if s.max >= t.max then s.max else t.max, s.count + t.count, s.ids + t.ids)
  }

  function Find(ss: seq<Summary>, k: Key): Option<Summary> {
    if ss == [] then None else if ss[0].key == k then Some(ss[0]) else Find(ss[1..], k)
  }

  /** What two reports together say about a key. */
  function Merged(a: Option<Summary>, b: Option<Summary>): Option<Summary> {
    match (a, b)
    case (Some(s), Some(t)) => if s.count + t.count > 0 then Some(Combine(s, t)) else None
    case (Some(s), None) => a
    case (None, _) => b
  }

  lemma {:induction false} FindSummary(cs: seq<Classified>, keys: seq<Key>, k: Key)
    requires Present(keys, cs)
    ensures Find(SummariesFor(keys, cs), k)
            == if k in keys && Group(cs, k) != [] then Some(Summarize(k, Group(cs, k))) else None
  {
    hide Round, Accumulate, Min, Max, Map, Sum;
    if keys != [] {
      var ss := SummariesFor(keys, cs);
      assert ss[1..] == SummariesFor(keys[1..], cs);
      FindSummary(cs, keys[1..], k);
      assert keys == [keys[0]] + keys[1..];
    }
  }

  lemma Find1(cs: seq<Classified>, k: Key)
    ensures Find(Summaries(cs), k) == if Group(cs, k) != [] then Some(Summarize(k, Group(cs, k))) else None
  {
    SortedKeysPresent(cs);
    FindSummary(cs, SortedKeys(cs), k);
    GroupEmptyIff(cs, k);
  }

  lemma MinConcat(xs: seq<int>, ys: seq<int>)
    requires xs != [] && ys != []
    ensures Min(xs + ys) == if Min(xs) <= Min(ys) then Min(xs) else Min(ys)
    ensures Max(xs + ys) == if Max(xs) >= Max(ys) then Max(xs) else Max(ys)
  {
    var zs := xs + ys;
    assert forall i :: 0 <= i < |xs| ==> zs[i] == xs[i];
    assert forall i :: 0 <= i < |ys| ==> zs[|xs| + i] == ys[i];
  }

  lemma SummarizeConcat(k: Key, g: seq<Classified>, h: seq<Classified>)
    requires g != [] && h != [] && Exact(g + h)
    ensures Combine(Summarize(k, g), Summarize(k, h)) == Summarize(k, g + h)
  {
    hide Round, Accumulate, Min, Max, Map, Sum;
    assert Exact(g) && Exact(h) by {
      assert forall c :: c in g || c in h ==> c in g + h;
    }
    ValuesAreExact(k, g);
    ValuesAreExact(k, h);
    ValuesAreExact(k, g + h);
    MapConcat(g, h, CentsOf());
    MapConcat(g, h, IdOf());
    SumConcat(Amounts(g), Amounts(h));
    MinConcat(Amounts(g), Amounts(h));
    AddRatio(Summarize(k, g).total, Sum(Amounts(g)), Summarize(k, h).total, Sum(Amounts(h)));
  }

  /**
   Aggregation is a homomorphism: the report on two batches together is, key by key, the merge
   of their two reports.
   */
  lemma ReportsMerge(cs: seq<Classified>, ds: seq<Classified>, k: Key)
    requires Exact(cs + ds)
    ensures Find(Summaries(cs + ds), k) == Merged(Find(Summaries(cs), k), Find(Summaries(ds), k))
  {
    Find1(cs, k);
    Find1(ds, k);
    Find1(cs + ds, k);
    FilterConcat(cs, ds, WithKey(k));
    var g, h := Group(cs, k), Group(ds, k);
    assert Group(cs + ds, k) == g + h;
    if g != [] && h != [] {
      ExactGroup(cs + ds, k);
      SummarizeConcat(k, g, h);
    } else if g == [] {
      assert g + h == h;
    } else {
      assert g + h == g;
    }
  }

  /** What a report says about a key is all it says: keys and entries determine it. */
  lemma {:induction false} ReportIsItsEntries(cs: seq<Classified>)
    ensures forall k :: k in SortedKeys(cs) <==> Find(Summaries(cs), k).Some?
    ensures |Summaries(cs)| == |SortedKeys(cs)|
    ensures forall i :: 0 <= i < |SortedKeys(cs)| ==> Some(Summaries(cs)[i]) == Find(Summaries(cs), SortedKeys(cs)[i])
  {
    SortedKeysPresent(cs);
    forall k
      ensures k in SortedKeys(cs) <==> Find(Summaries(cs), k).Some?
    {
      Find1(cs, k);
      GroupEmptyIff(cs, k);
    }
    forall i | 0 <= i < |SortedKeys(cs)|
      ensures Some(Summaries(cs)[i]) == Find(Summaries(cs), SortedKeys(cs)[i])
    {
      Find1(cs, SortedKeys(cs)[i]);
    }
  }
}
