/**
 Aggregation of classified transactions into report line items: a sorted group-by on
 (category, currency) with five metrics per group, in 28-digit decimal arithmetic.
 */
module Aggregation {
  import opened Base
  import opened Decimals
  import opened Transactions
  import Strings

  // ---- Grouping keys ----

  datatype Key = Key(category: string, currency: string)

  function KeyOf(c: Classified): Key {
    Key(CategoryText(c.category), c.transaction.currency)
  }

  /** Grouping by the category's text is grouping by category. */
  lemma SameKeyIff(a: Classified, b: Classified)
    ensures KeyOf(a) == KeyOf(b)
            <==> a.category == b.category && a.transaction.currency == b.transaction.currency
  {
    CategoryTextInjective(a.category, b.category);
  }

  lemma CategoryTextInjective(a: Category, b: Category)
    ensures CategoryText(a) == CategoryText(b) <==> a == b
  {
    assert |CategoryText(Unclassified)| == 12 && |CategoryText(RetailPayment)| == 14;
    assert |CategoryText(WireTransfer)| == 13 && |CategoryText(InternalTransfer)| == 17;
    assert |CategoryText(Refund)| == 6 && |CategoryText(Fee)| == 3;
    assert |CategoryText(HighValue)| == 10 == |CategoryText(Suspicious)|;
    assert CategoryText(HighValue)[0] == 'h' && CategoryText(Suspicious)[0] == 's';
  }

  predicate KeyLe(a: Key, b: Key) {
    if a.category == b.category then Strings.StringLe(a.currency, b.currency)
    else Strings.StringLe(a.category, b.category)
  }

  predicate KeyLess(a: Key, b: Key) {
    a != b && KeyLe(a, b)
  }

  lemma KeyOrder(a: Key, b: Key)
    ensures KeyLess(a, b) || a == b || KeyLess(b, a)
    ensures !(KeyLess(a, b) && KeyLess(b, a))
  {
    Strings.StringLeTotal(a.category, b.category);
    Strings.StringLeTotal(a.currency, b.currency);
    if KeyLe(a, b) && KeyLe(b, a) {
      if a.category == b.category {
        Strings.StringLeAntisymmetric(a.currency, b.currency);
      } else {
        Strings.StringLeAntisymmetric(a.category, b.category);
      }
    }
  }

  lemma KeyLessTransitive(a: Key, b: Key, c: Key)
    requires KeyLess(a, b) && KeyLess(b, c)
    ensures KeyLess(a, c)
  {
    KeyOrder(a, b);
    if a.category == b.category == c.category {
      Strings.StringLeTransitive(a.currency, b.currency, c.currency);
    } else {
      if a.category != b.category && b.category != c.category {
        Strings.StringLeTransitive(a.category, b.category, c.category);
        if a.category == c.category {
          Strings.StringLeAntisymmetric(a.category, b.category);
        }
      }
    }
    if a == c { KeyOrder(b, c); }
  }

  ghost predicate StrictlySorted(keys: seq<Key>) {
    forall i, j :: 0 <= i < j < |keys| ==> KeyLess(keys[i], keys[j])
  }

  function InsertKey(k: Key, keys: seq<Key>): seq<Key> {
    if keys == [] then [k]
    else if k == keys[0] then keys
    else if KeyLe(k, keys[0]) then [k] + keys
    else [keys[0]] + InsertKey(k, keys[1..])
  }

  lemma {:induction false} InsertKeySorted(k: Key, keys: seq<Key>)
    requires StrictlySorted(keys)
    ensures StrictlySorted(InsertKey(k, keys))
    ensures forall q :: q in InsertKey(k, keys) <==> q == k || q in keys
  {
    if keys != [] && k != keys[0] {
      KeyOrder(k, keys[0]);
      if KeyLe(k, keys[0]) {
        forall j | 0 < j < |keys|
          ensures KeyLess(k, keys[j])
        {
          KeyLessTransitive(k, keys[0], keys[j]);
        }
      } else {
        var rest := InsertKey(k, keys[1..]);
        InsertKeySorted(k, keys[1..]);
        forall j | 0 <= j < |rest|
          ensures KeyLess(keys[0], rest[j])
        {
          assert rest[j] in rest;
        }
      }
      assert keys == [keys[0]] + keys[1..];
    }
  }

  /** Two strictly sorted lists with the same members are the same list. */
  lemma {:induction false} StrictlySortedUnique(a: seq<Key>, b: seq<Key>)
    requires StrictlySorted(a) && StrictlySorted(b)
    requires forall k :: k in a <==> k in b
    ensures a == b
  {
    assert a != [] ==> a[0] in b;
    assert b != [] ==> b[0] in a;
    if a != [] && b != [] {
      HeadsAgree(a, b);
      forall k
        ensures k in a[1..] <==> k in b[1..]
      {
        TailMembers(a, k);
        TailMembers(b, k);
      }
      StrictlySortedUnique(a[1..], b[1..]);
      assert a == [a[0]] + a[1..] && b == [b[0]] + b[1..];
    }
  }

  lemma HeadsAgree(a: seq<Key>, b: seq<Key>)
    requires StrictlySorted(a) && StrictlySorted(b) && a != [] && b != []
    requires a[0] in b && b[0] in a
    ensures a[0] == b[0]
  {
    var i :| 0 <= i < |b| && b[i] == a[0];
    var j :| 0 <= j < |a| && a[j] == b[0];
    KeyOrder(a[0], b[0]);
  }

  lemma TailMembers(a: seq<Key>, k: Key)
    requires StrictlySorted(a) && a != []
    ensures k in a[1..] <==> k in a && k != a[0]
  {
    assert a == [a[0]] + a[1..];
    if k in a[1..] {
      var i :| 0 <= i < |a| - 1 && a[1..][i] == k;
      assert KeyLess(a[0], a[i + 1]);
    }
  }

  /** The keys `groupby(..., sort=True)` yields, in order. */
  function SortedKeys(cs: seq<Classified>): seq<Key> {
    if cs == [] then [] else InsertKey(KeyOf(cs[0]), SortedKeys(cs[1..]))
  }

  ghost predicate HasKeyIn(cs: seq<Classified>, k: Key) {
    exists i :: 0 <= i < |cs| && KeyOf(cs[i]) == k
  }

  /** Keys come out strictly increasing, and are exactly those that occur. */
  lemma {:induction false} SortedKeysAreTheKeys(cs: seq<Classified>)
    ensures StrictlySorted(SortedKeys(cs))
    ensures forall k :: k in SortedKeys(cs) <==> HasKeyIn(cs, k)
  {
    if cs != [] {
      SortedKeysAreTheKeys(cs[1..]);
      InsertKeySorted(KeyOf(cs[0]), SortedKeys(cs[1..]));
      forall k
        ensures HasKeyIn(cs, k) <==> k == KeyOf(cs[0]) || HasKeyIn(cs[1..], k)
      {
        if HasKeyIn(cs[1..], k) {
          var i :| 0 <= i < |cs| - 1 && KeyOf(cs[1..][i]) == k;
          assert KeyOf(cs[i + 1]) == k;
        }
      }
    }
  }

  // ---- One group ----

  function WithKey(k: Key): Classified -> bool {
    (c: Classified) => KeyOf(c) == k
  }

  function Group(cs: seq<Classified>, k: Key): seq<Classified> {
    Filter(cs, WithKey(k))
  }

  lemma GroupEmptyIff(cs: seq<Classified>, k: Key)
    ensures Group(cs, k) != [] <==> k in SortedKeys(cs)
  {
    SortedKeysAreTheKeys(cs);
    if Group(cs, k) != [] {
      assert Group(cs, k)[0] in Group(cs, k);
    }
    if HasKeyIn(cs, k) {
      var i :| 0 <= i < |cs| && KeyOf(cs[i]) == k;
      assert WithKey(k)(cs[i]);
      assert cs[i] in Group(cs, k);
    }
  }

  function IdOf(): Classified -> string {
    (c: Classified) => c.transaction.externalId
  }

  function CentsOf(): Classified -> int {
    (c: Classified) => c.transaction.cents
  }

  function Ids(cs: seq<Classified>): seq<string> { Map(cs, IdOf()) }

  function Amounts(cs: seq<Classified>): seq<int> { Map(cs, CentsOf()) }

  function Min(xs: seq<int>): (m: int)
    requires xs != []
    ensures m in xs && forall i :: 0 <= i < |xs| ==> m <= xs[i]
  {
    if |xs| == 1 then xs[0]
    else var m := Min(xs[1..]); if xs[0] <= m then xs[0] else m
  }

  function Max(xs: seq<int>): (m: int)
    requires xs != []
    ensures m in xs && forall i :: 0 <= i < |xs| ==> xs[i] <= m
  {
    if |xs| == 1 then xs[0]
    else var m := Max(xs[1..]); if xs[0] >= m then xs[0] else m
  }

  /** What one group reports. */
  datatype Summary = Summary(
    key: Key, total: Decimal, average: Decimal, min: int, max: int, count: nat, ids: seq<string>)

  function Summarize(k: Key, g: seq<Classified>): Summary
    requires g != []
  {
    var total := Accumulate(Decimal(0, 0), Amounts(g));
    Summary(k, total, Average(total, |g|), Min(Amounts(g)), Max(Amounts(g)), |g|, Ids(g))
  }

  // ---- Line items ----

  datatype Metric = TotalAmount | AverageAmount | MinAmount | MaxAmount | TransactionCount

  const METRICS := [TotalAmount, AverageAmount, MinAmount, MaxAmount, TransactionCount]

  datatype LineItem = LineItem(key: Key, metric: Metric, value: Decimal, count: nat, sourceIds: seq<string>)

  function ValueOf(s: Summary, m: Metric): Decimal {
    match m
    case TotalAmount => s.total
    case AverageAmount => s.average
    case MinAmount => Cents(s.min)
    case MaxAmount => Cents(s.max)
    case TransactionCount => Decimal(s.count, 0)
  }

  function ItemOf(s: Summary, m: Metric): LineItem {
    LineItem(s.key, m, ValueOf(s, m), s.count, s.ids)
  }

  function ItemsFor(s: Summary, metrics: seq<Metric>): (r: seq<LineItem>)
    ensures |r| == |metrics|
    ensures forall j :: 0 <= j < |metrics| ==> r[j] == ItemOf(s, metrics[j])
  {
    if metrics == [] then [] else [ItemOf(s, metrics[0])] + ItemsFor(s, metrics[1..])
  }

  predicate Present(keys: seq<Key>, cs: seq<Classified>) {
    forall i :: 0 <= i < |keys| ==> Group(cs, keys[i]) != []
  }

  lemma SortedKeysPresent(cs: seq<Classified>)
    ensures Present(SortedKeys(cs), cs)
  {
    forall i | 0 <= i < |SortedKeys(cs)|
      ensures Group(cs, SortedKeys(cs)[i]) != []
    {
      GroupEmptyIff(cs, SortedKeys(cs)[i]);
    }
  }

  function SummariesFor(keys: seq<Key>, cs: seq<Classified>): (r: seq<Summary>)
    requires Present(keys, cs)
    ensures |r| == |keys|
    ensures forall i :: 0 <= i < |keys| ==> r[i] == Summarize(keys[i], Group(cs, keys[i]))
  {
    seq(|keys|, i requires 0 <= i < |keys| => Summarize(keys[i], Group(cs, keys[i])))
  }

  /** The report by groups, in key order. */
  function Summaries(cs: seq<Classified>): seq<Summary> {
    SortedKeysPresent(cs);
    SummariesFor(SortedKeys(cs), cs)
  }

  function Flatten(ss: seq<Summary>): (r: seq<LineItem>)
    ensures |r| == 5 * |ss|
  {
    if ss == [] then [] else Flatten(ss[..|ss| - 1]) + ItemsFor(ss[|ss| - 1], METRICS)
  }

  /** The whole report, row by row. */
  function LineItems(cs: seq<Classified>): seq<LineItem> {
    Flatten(Summaries(cs))
  }

  /** `aggregate_line_items`: nested loops over groups and metrics. */
  method AggregateLineItems(cs: seq<Classified>) returns (items: seq<LineItem>)
    ensures items == LineItems(cs)
  {
    items := [];
    if cs == [] {
      return;
    }
    var keys := SortedKeys(cs);
    ghost var ss := Summaries(cs);
    SortedKeysPresent(cs);
    for i := 0 to |keys|
      invariant items == Flatten(ss[..i])
    {
      var group := Group(cs, keys[i]);
      var amounts := Amounts(group);
      var ids := Ids(group);
      var count := |amounts|;
      var total := Accumulate(Decimal(0, 0), amounts);
      var average := Average(total, count);
      var summary := Summary(keys[i], total, average, Min(amounts), Max(amounts), count, ids);
      assert summary == ss[i];
      items := AppendMetrics(items, summary);
      FlattenSnoc(ss, i);
    }
    assert ss[..|keys|] == ss;
  }

  /** The inner loop: one row per metric. */
  method AppendMetrics(before: seq<LineItem>, s: Summary) returns (items: seq<LineItem>)
    ensures items == before + ItemsFor(s, METRICS)
  {
    items := before;
    ghost var rows := ItemsFor(s, METRICS);
    for j := 0 to |METRICS|
      invariant items == before + rows[..j]
    {
      items := items + [LineItem(s.key, METRICS[j], ValueOf(s, METRICS[j]), s.count, s.ids)];
    }
    assert rows[..|METRICS|] == rows;
  }

  lemma FlattenSnoc(ss: seq<Summary>, i: nat)
    requires i < |ss|
    ensures Flatten(ss[..i + 1]) == Flatten(ss[..i]) + ItemsFor(ss[i], METRICS)
  {
    assert ss[..i + 1][..i] == ss[..i];
  }
}
