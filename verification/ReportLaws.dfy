/**
 What a whole report promises: it always builds under v1, is reproducible, is tied to its input
 fingerprint as far as the fingerprint goes, and adds up across consecutive months.
 */
module ReportLaws {
  import opened Base
  import opened Transactions
  import opened Aggregation
  import opened AggregationLaws
  import opened ReportBuilder
  import Calendar
  import Decimals
  import Fingerprint
  import Rules
  import Sorting
  import Strings

  // ---- Building ----

  function RuleIdV1(t: Transaction): string {
    match Rules.FirstMatch(Rules.RULE_SET_V1.classification, t)
    case Some(r) => r.Id()
    case None => ""
  }

  /** The classification v1 gives a transaction. */
  function ClassifyV1(): Transaction -> Classified {
    (t: Transaction) => Classified(t, Rules.CategoryV1(t), RuleIdV1(t))
  }

  function ItemsV1(ts: seq<Transaction>): seq<LineItem> {
    LineItems(Map(ts, ClassifyV1()))
  }

  lemma {:induction false} RunV1(ts: seq<Transaction>, nows: seq<int>)
    requires |nows| == |ts|
    ensures Rules.Run(Rules.RULE_SET_V1, ts, nows).Ok?
    ensures Rules.Run(Rules.RULE_SET_V1, ts, nows).value.classified == Map(ts, ClassifyV1())
  {
    hide Rules.FirstMatch, Rules.Violations, Rules.CategoryV1, ClassifyV1;
    if ts != [] {
      RunV1(ts[1..], nows[1..]);
      ClassifyOne(ts[0]);
      MapSplit(ts, 0, ClassifyV1());
      assert Map(ts, ClassifyV1()) == [ClassifyV1()(ts[0])] + Map(ts[1..], ClassifyV1());
    }
  }

  lemma ClassifyOne(t: Transaction)
    ensures Rules.FirstMatch(Rules.RULE_SET_V1.classification, t).Some?
    ensures var r := Rules.FirstMatch(Rules.RULE_SET_V1.classification, t).value;
            ClassifyV1()(t) == Classified(t, r.Target(), r.Id())
  {
    hide Rules.FirstMatch, Rules.CategoryV1;
    Rules.V1IsTable(t);
  }

  /**
   Under v1 every input, also the empty one, yields a report, and its line items and fingerprint
   depend on the transactions alone, whatever the clock read.
   */
  lemma ReportsAreReproducible(
    sha: string -> string, ts: seq<Transaction>, period: Calendar.Period, a: Clocks, b: Clocks)
    requires |a.perTransaction| == |ts| == |b.perTransaction|
    ensures var r := BuildReport(sha, ts, Rules.RULE_SET_V1, period, a);
            var s := BuildReport(sha, ts, Rules.RULE_SET_V1, period, b);
            && r.Ok? && s.Ok?
            && r.value.lineItems == s.value.lineItems == ItemsV1(ts)
            && r.value.inputHash == s.value.inputHash
            && ((forall i :: 0 <= i < |ts| ==> a.perTransaction[i] <= b.perTransaction[i])
                ==> Rules.Prunes(s.value.violations, r.value.violations))
  {
    hide LineItems, Rules.Run, Rules.Prunes, Fingerprint.CanonicalText, Rules.RuleSetText;
    RunV1(ts, a.perTransaction);
    RunV1(ts, b.perTransaction);
    if forall i :: 0 <= i < |ts| ==> a.perTransaction[i] <= b.perTransaction[i] {
      Rules.RunLater(Rules.RULE_SET_V1, ts, a.perTransaction, b.perTransaction);
    }
  }

  /**
   The audit trail records the four stages in order, and its counts are those of the report: the
   input's length twice, the violations, and five line items per category and currency.
   */
  lemma AuditTrailCounts(
    sha: string -> string, ts: seq<Transaction>, rules: Rules.RuleSet, period: Calendar.Period, clocks: Clocks)
    requires |clocks.perTransaction| == |ts| && BuildReport(sha, ts, rules, period, clocks).Ok?
    ensures var r := BuildReport(sha, ts, rules, period, clocks).value;
            && r.period == period && r.version == rules.version && r.inputCount == |ts| && r.generatedAt == clocks.started
            && |r.audit| == 4
            && r.audit[0].IngestionLoaded? && r.audit[0].transactions == |ts|
            && r.audit[1].RulesApplied? && r.audit[1].classified == |ts| && r.audit[1].version == rules.version
            && r.audit[1].definitionHash == sha(Rules.RuleSetText(rules))
            && r.audit[2].ValidationCompleted? && r.audit[2].violations == |r.violations|
            && r.audit[3].AggregationCompleted? && r.audit[3].lineItems == |r.lineItems|
            && (exists groups: nat :: |r.lineItems| == 5 * groups)
  {
    hide Rules.Run, LineItems, Rules.RuleSetText, Fingerprint.CanonicalText;
    Rules.RunFailsIff(rules, ts, clocks.perTransaction);
    LineItemCount(Rules.Run(rules, ts, clocks.perTransaction).value.classified);
  }

  // ---- Fingerprint and report ----

  /** The reports of two inputs agree in every row, up to the order of source ids. */
  ghost predicate ReportsAlike(xs: seq<Transaction>, ys: seq<Transaction>) {
    && |ItemsV1(ys)| == |ItemsV1(xs)|
    && forall r :: 0 <= r < |ItemsV1(xs)| ==> SameRowButOrder(ItemsV1(xs)[r], ItemsV1(ys)[r])
  }

  lemma AlikeSymmetric(xs: seq<Transaction>, ys: seq<Transaction>)
    requires ReportsAlike(xs, ys)
    ensures ReportsAlike(ys, xs)
  {
    hide ItemsV1;
    forall r | 0 <= r < |ItemsV1(ys)|
      ensures SameRowButOrder(ItemsV1(ys)[r], ItemsV1(xs)[r])
    {
      assert SameRowButOrder(ItemsV1(xs)[r], ItemsV1(ys)[r]);
    }
  }

  lemma AlikeTransitive(xs: seq<Transaction>, ys: seq<Transaction>, zs: seq<Transaction>)
    requires ReportsAlike(xs, ys) && ReportsAlike(ys, zs)
    ensures ReportsAlike(xs, zs)
  {
    hide ItemsV1;
    forall r | 0 <= r < |ItemsV1(xs)|
      ensures SameRowButOrder(ItemsV1(xs)[r], ItemsV1(zs)[r])
    {
      assert SameRowButOrder(ItemsV1(xs)[r], ItemsV1(ys)[r]) && SameRowButOrder(ItemsV1(ys)[r], ItemsV1(zs)[r]);
    }
  }

  /** The same row with another category hint. */
  function WithHint(hint: string): Transaction -> Transaction {
    (t: Transaction) => t.(hint := Some(hint))
  }

  lemma {:induction false} InsertHinted(hint: string, x: Transaction, ys: seq<Transaction>)
    ensures Sorting.Insert(WithHint(hint)(x), Map(ys, WithHint(hint)), Fingerprint.ById())
            == Map(Sorting.Insert(x, ys, Fingerprint.ById()), WithHint(hint))
  {
    hide Strings.StringLe;
    var f, le := WithHint(hint), Fingerprint.ById();
    if ys != [] {
      assert le(f(x), f(ys[0])) == le(x, ys[0]);
      assert Map(ys, f)[1..] == Map(ys[1..], f);
      InsertHinted(hint, x, ys[1..]);
    }
    assert Map([x] + ys, f) == [f(x)] + Map(ys, f);
    if ys != [] {
      var rest := Sorting.Insert(x, ys[1..], le);
      assert Map([ys[0]] + rest, f) == [f(ys[0])] + Map(rest, f);
    }
  }

  lemma {:induction false} OrderedHinted(hint: string, xs: seq<Transaction>)
    ensures Fingerprint.Ordered(Map(xs, WithHint(hint))) == Map(Fingerprint.Ordered(xs), WithHint(hint))
  {
    hide Sorting.Insert;
    if xs != [] {
      assert Map(xs, WithHint(hint))[1..] == Map(xs[1..], WithHint(hint));
      OrderedHinted(hint, xs[1..]);
      InsertHinted(hint, xs[0], Fingerprint.Ordered(xs[1..]));
    }
  }

  /** Hints do not enter the hashed text. */
  lemma HintsKeepText(hint: string, xs: seq<Transaction>)
    ensures Fingerprint.CanonicalText(Map(xs, WithHint(hint))) == Fingerprint.CanonicalText(xs)
  {
    hide Sorting.StableSort, Strings.Join, Calendar.IsoText, Strings.AmountText;
    OrderedHinted(hint, xs);
    var o := Fingerprint.Ordered(xs);
    forall i | 0 <= i < |o|
      ensures Fingerprint.LineOf()(WithHint(hint)(o[i])) == Fingerprint.LineOf()(o[i])
    {
      HintsKeepLine(hint, o[i]);
    }
    assert Map(Map(o, WithHint(hint)), Fingerprint.LineOf()) == Map(o, Fingerprint.LineOf());
  }

  lemma HintDecides(t: Transaction)
    ensures Rules.CategoryV1(WithHint("fee")(t)) == Fee
    ensures Rules.CategoryV1(WithHint("suspicious")(t)) == Suspicious
  {
    hide Strings.Lower, Strings.Strip;
    Rules.PlainWord("fee");
    Rules.PlainWord("suspicious");
    Rules.WordLengths();
  }

  /** If v1 gives all rows one category, that is the category of the report's first row. */
  lemma FirstRowCategory(ts: seq<Transaction>, c: Category)
    requires ts != [] && forall t :: t in ts ==> Rules.CategoryV1(t) == c
    ensures ItemsV1(ts) != [] && ItemsV1(ts)[0].key.category == CategoryText(c)
  {
    hide Rules.CategoryV1, RuleIdV1, LineItems, SortedKeys;
    var cs := Map(ts, ClassifyV1());
    SortedKeysAreTheKeys(cs);
    assert HasKeyIn(cs, KeyOf(cs[0]));
    ReportLayout(cs, 0, 0);
    assert SortedKeys(cs)[0] in SortedKeys(cs);
    var i :| 0 <= i < |cs| && KeyOf(cs[i]) == SortedKeys(cs)[0];
    assert ts[i] in ts;
  }

  lemma HintedReport(hint: string, xs: seq<Transaction>, c: Category)
    requires xs != [] && forall t :: Rules.CategoryV1(WithHint(hint)(t)) == c
    ensures ItemsV1(Map(xs, WithHint(hint))) != []
    ensures ItemsV1(Map(xs, WithHint(hint)))[0].key.category == CategoryText(c)
  {
    hide ItemsV1, Rules.CategoryV1, WithHint;
    FirstRowCategory(Map(xs, WithHint(hint)), c);
  }

  /**
   The category hint decides the classification but is not part of the hashed text: any non-empty
   input has a partner with other hints, the same text and another report.
   */
  lemma HintsAreNotFingerprinted(xs: seq<Transaction>) returns (hint: string)
    requires xs != []
    ensures var ys := Map(xs, WithHint(hint));
            && Fingerprint.CanonicalText(ys) == Fingerprint.CanonicalText(xs)
            && !ReportsAlike(xs, ys)
            && (AllStorable(xs) ==> AllStorable(ys))
  {
    hide ItemsV1, Rules.CategoryV1, Fingerprint.CanonicalText;
    forall t
      ensures Rules.CategoryV1(WithHint("fee")(t)) == Fee
      ensures Rules.CategoryV1(WithHint("suspicious")(t)) == Suspicious
    {
      HintDecides(t);
    }
    HintedReport("fee", xs, Fee);
    HintedReport("suspicious", xs, Suspicious);
    CategoryTextInjective(Fee, Suspicious);
    hint := "fee";
    if ReportsAlike(xs, Map(xs, WithHint("fee"))) {
      assert SameRowButOrder(ItemsV1(xs)[0], ItemsV1(Map(xs, WithHint("fee")))[0]);
      hint := "suspicious";
    }
    HintsKeepText(hint, xs);
    if AllStorable(xs) {
      HintedStorable(hint, xs);
    }
  }

  lemma HintedStorable(hint: string, xs: seq<Transaction>)
    requires AllStorable(xs)
    ensures AllStorable(Map(xs, WithHint(hint)))
  {
    hide Decimals.InColumn;
    var ys := Map(xs, WithHint(hint));
    forall y | y in ys
      ensures Storable(y)
    {
      var i :| 0 <= i < |ys| && ys[i] == y;
      assert xs[i] in xs;
    }
  }

  /** Every input with the text of this one has its report. */
  ghost predicate TextFixesReport(xs: seq<Transaction>) {
    forall ys :: Fingerprint.CanonicalText(ys) == Fingerprint.CanonicalText(xs) ==> ReportsAlike(xs, ys)
  }

  /** Every input the database can hold with the text of this one has its report. */
  ghost predicate TextFixesStorableReport(xs: seq<Transaction>) {
    forall ys :: AllStorable(ys) && Fingerprint.CanonicalText(ys) == Fingerprint.CanonicalText(xs)
                 ==> ReportsAlike(xs, ys)
  }

  /** The fingerprint fixes the report of an input exactly if that input is empty. */
  lemma FingerprintFixesReportIff(xs: seq<Transaction>)
    ensures TextFixesReport(xs) <==> xs == []
    ensures AllStorable(xs) ==> (TextFixesStorableReport(xs) <==> xs == [])
  {
    hide Fingerprint.CanonicalText, ItemsV1;
    if xs != [] {
      var hint := HintsAreNotFingerprinted(xs);
      var ys := Map(xs, WithHint(hint));
      assert Fingerprint.CanonicalText(ys) == Fingerprint.CanonicalText(xs) && !ReportsAlike(xs, ys);
    } else {
      forall ys | Fingerprint.CanonicalText(ys) == Fingerprint.CanonicalText([])
        ensures ReportsAlike([], ys)
      {
        if ys != [] { Fingerprint.TextHasBar(ys); }
      }
    }
  }

  function CategoryV1Of(): Transaction -> Category {
    (t: Transaction) => Rules.CategoryV1(t)
  }

  /** Two inputs have the same categories, row by row in order of ids. */
  ghost predicate CategoriesAgree(xs: seq<Transaction>, ys: seq<Transaction>) {
    Map(Fingerprint.Ordered(xs), CategoryV1Of()) == Map(Fingerprint.Ordered(ys), CategoryV1Of())
  }

  ghost predicate DistinctIds(ts: seq<Transaction>) {
    forall i, j :: 0 <= i < j < |ts| ==> ts[i].externalId != ts[j].externalId
  }

  /**
   Fingerprint and categories together do fix the report, and where ids are distinct the
   categories are exactly what the fingerprint leaves open.
   */
  lemma FingerprintAndCategoriesFixReport(xs: seq<Transaction>, ys: seq<Transaction>)
    requires Fingerprint.AllClean(xs) && Fingerprint.AllClean(ys)
    requires |xs| <= Decimals.EXACT_COUNT && |ys| <= Decimals.EXACT_COUNT
    requires Fingerprint.CanonicalText(xs) == Fingerprint.CanonicalText(ys)
    ensures CategoriesAgree(xs, ys) ==> ReportsAlike(xs, ys)
    ensures DistinctIds(xs) ==> (ReportsAlike(xs, ys) <==> CategoriesAgree(xs, ys))
  {
    hide Fingerprint.CanonicalText, ItemsV1, ReportsAlike, Sorting.StableSort, Rules.CategoryV1, Fingerprint.HashedOf,
         AllInColumn, DistinctIds;
    var a, b := Fingerprint.Ordered(xs), Fingerprint.Ordered(ys);
    Fingerprint.TextDetermines(xs, ys);
    OrderedReportsAlike(xs);
    OrderedReportsAlike(ys);
    if CategoriesAgree(xs, ys) {
      HashedAndCategoriesAlign(a, b);
      SameItemsAlike(a, b);
      AlikeTransitive(xs, a, b);
      AlikeTransitive(xs, b, ys);
    }
    if ReportsAlike(xs, ys) && DistinctIds(xs) {
      AlikeTransitive(a, xs, ys);
      AlikeTransitive(a, ys, b);
      OrderedIdsDistinct(xs);
      AlikeFixesCategories(a, b);
    }
  }

  lemma SameItemsAlike(a: seq<Transaction>, b: seq<Transaction>)
    requires ItemsV1(a) == ItemsV1(b)
    ensures ReportsAlike(a, b)
  {
    hide ItemsV1;
  }

  lemma OrderedReportsAlike(xs: seq<Transaction>)
    requires Fingerprint.AllClean(xs) && |xs| <= Decimals.EXACT_COUNT
    ensures ReportsAlike(xs, Fingerprint.Ordered(xs)) && ReportsAlike(Fingerprint.Ordered(xs), xs)
  {
    hide ItemsV1, Sorting.StableSort, AllInColumn, Fingerprint.Clean;
    Sorting.StableSortPermutes(xs, Fingerprint.ById());
    CleanInColumn(xs);
    LoadsReportAlike(xs, Fingerprint.Ordered(xs));
    AlikeSymmetric(xs, Fingerprint.Ordered(xs));
  }

  function IdOfRow(): Transaction -> string {
    (t: Transaction) => t.externalId
  }

  lemma OnceIffDistinct(ts: seq<Transaction>)
    ensures DistinctIds(ts) <==> forall id :: multiset(Map(ts, IdOfRow()))[id] <= 1
  {
    var ids := Map(ts, IdOfRow());
    if DistinctIds(ts) {
      forall id
        ensures multiset(ids)[id] <= 1
      {
        DistinctCount(ids, id);
      }
    }
    if forall id :: multiset(ids)[id] <= 1 {
      forall i, j | 0 <= i < j < |ts|
        ensures ts[i].externalId != ts[j].externalId
      {
        if ids[i] == ids[j] {
          Rules.CountedTwice(ids, i, j);
        }
      }
    }
  }

  lemma {:induction false} DistinctCount(ids: seq<string>, id: string)
    requires forall i, j :: 0 <= i < j < |ids| ==> ids[i] != ids[j]
    ensures multiset(ids)[id] <= 1
  {
    if ids != [] {
      assert ids == [ids[0]] + ids[1..];
      DistinctCount(ids[1..], id);
      if ids[0] == id {
        assert id !in ids[1..];
        assert multiset(ids[1..])[id] == 0;
      }
    }
  }

  lemma OrderedIdsDistinct(xs: seq<Transaction>)
    requires DistinctIds(xs)
    ensures DistinctIds(Fingerprint.Ordered(xs))
  {
    hide Sorting.StableSort, DistinctIds;
    Sorting.StableSortPermutes(xs, Fingerprint.ById());
    MapPermutes(xs, Fingerprint.Ordered(xs), IdOfRow());
    OnceIffDistinct(xs);
    OnceIffDistinct(Fingerprint.Ordered(xs));
  }

  /** Alike reports list an id under the same key. */
  lemma IdKeepsKey(cs: seq<Classified>, ds: seq<Classified>, p: nat) returns (q: nat)
    requires |LineItems(cs)| == |LineItems(ds)| && p < |cs|
    requires forall r :: 0 <= r < |LineItems(cs)| ==> SameRowButOrder(LineItems(cs)[r], LineItems(ds)[r])
    ensures q < |ds| && KeyOf(ds[q]) == KeyOf(cs[p])
    ensures ds[q].transaction.externalId == cs[p].transaction.externalId
  {
    hide LineItems, SortedKeys, KeyOf;
    var k, id := KeyOf(cs[p]), cs[p].transaction.externalId;
    SortedKeysAreTheKeys(cs);
    assert HasKeyIn(cs, k);
    var i :| 0 <= i < |SortedKeys(cs)| && SortedKeys(cs)[i] == k;
    LineItemCount(ds);
    ReportLayout(cs, i, 0);
    ReportLayout(ds, i, 0);
    var a, b := LineItems(cs)[5 * i], LineItems(ds)[5 * i];
    assert SameRowButOrder(a, b);
    InGroup(cs, p);
    PermutedLength(a.sourceIds, b.sourceIds);
    assert id in b.sourceIds;
    q := FromGroup(ds, k, id);
  }

  lemma InGroup(cs: seq<Classified>, p: nat)
    requires p < |cs|
    ensures cs[p].transaction.externalId in Ids(Group(cs, KeyOf(cs[p])))
  {
    hide KeyOf;
    var g := Group(cs, KeyOf(cs[p]));
    assert WithKey(KeyOf(cs[p]))(cs[p]) && cs[p] in g;
    var j :| 0 <= j < |g| && g[j] == cs[p];
    assert Ids(g)[j] == cs[p].transaction.externalId;
  }

  lemma FromGroup(cs: seq<Classified>, k: Key, id: string) returns (q: nat)
    requires id in Ids(Group(cs, k))
    ensures q < |cs| && KeyOf(cs[q]) == k && cs[q].transaction.externalId == id
  {
    hide KeyOf;
    var g := Group(cs, k);
    var j :| 0 <= j < |g| && Ids(g)[j] == id;
    assert g[j] in g;
    q :| 0 <= q < |cs| && cs[q] == g[j];
  }

  /** With distinct ids in the same order, alike reports come from the same categories. */
  lemma AlikeFixesCategories(a: seq<Transaction>, b: seq<Transaction>)
    requires Map(a, Fingerprint.HashedOf()) == Map(b, Fingerprint.HashedOf())
    requires ReportsAlike(a, b) && DistinctIds(a)
    ensures Map(a, CategoryV1Of()) == Map(b, CategoryV1Of())
  {
    hide LineItems, Rules.CategoryV1, RuleIdV1, KeyOf;
    var f := ClassifyV1();
    assert |a| == |Map(a, Fingerprint.HashedOf())| == |b|;
    forall p | 0 <= p < |a|
      ensures Rules.CategoryV1(a[p]) == Rules.CategoryV1(b[p])
    {
      var q := IdKeepsKey(Map(a, f), Map(b, f), p);
      assert Map(a, Fingerprint.HashedOf())[q] == Map(b, Fingerprint.HashedOf())[q];
      assert p == q;
      SameKeyIff(Map(a, f)[p], Map(b, f)[q]);
    }
  }

  /**
   With repeated ids the categories can change unseen: of two rows that differ in nothing but
   their hints, either may be the fee.
   */
  lemma RepeatedIdsCanHideCategories(t: Transaction)
    requires Decimals.InColumn(t.cents)
    ensures var xs := [WithHint("fee")(t), WithHint("suspicious")(t)];
            var ys := [WithHint("suspicious")(t), WithHint("fee")(t)];
            && Fingerprint.CanonicalText(xs) == Fingerprint.CanonicalText(ys)
            && ReportsAlike(xs, ys) && !CategoriesAgree(xs, ys)
  {
    hide Fingerprint.CanonicalText, ItemsV1, Rules.CategoryV1, Fingerprint.LineOf, Strings.StringLe, Fingerprint.Ordered;
    var f, s := WithHint("fee")(t), WithHint("suspicious")(t);
    Strings.StringLeTotal(t.externalId, t.externalId);
    Fingerprint.PairText(f, s);
    Fingerprint.PairText(s, f);
    HintsKeepLine("fee", t);
    HintsKeepLine("suspicious", t);
    HintDecides(t);
    PairInOrder(f, s);
    PairInOrder(s, f);
    assert multiset([f, s]) == multiset([s, f]);
    LoadsReportAlike([f, s], [s, f]);
    assert Map([f, s], CategoryV1Of())[0] != Map([s, f], CategoryV1Of())[0];
  }

  lemma HintsKeepLine(hint: string, t: Transaction)
    ensures Fingerprint.LineOf()(WithHint(hint)(t)) == Fingerprint.LineOf()(t)
  {
    hide Strings.Join, Calendar.IsoText, Strings.AmountText;
  }

  lemma PairInOrder(x: Transaction, y: Transaction)
    requires Fingerprint.ById()(x, y)
    ensures Fingerprint.Ordered([x, y]) == [x, y]
  {
    hide Strings.StringLe;
    assert [x, y][1..] == [y] && [y][1..] == [];
    assert Sorting.StableSort([y], Fingerprint.ById()) == [y];
  }

  /** Hashed fields and categories are all that a report looks at. */
  lemma HashedAndCategoriesAlign(a: seq<Transaction>, b: seq<Transaction>)
    requires Map(a, Fingerprint.HashedOf()) == Map(b, Fingerprint.HashedOf())
    requires Map(a, CategoryV1Of()) == Map(b, CategoryV1Of())
    ensures ItemsV1(a) == ItemsV1(b)
  {
    hide LineItems, Rules.CategoryV1, RuleIdV1;
    var f := ClassifyV1();
    assert |a| == |Map(a, CategoryV1Of())| == |b|;
    forall i | 0 <= i < |a|
      ensures EntryOf()(f(a[i])) == EntryOf()(f(b[i]))
    {
      assert Map(a, CategoryV1Of())[i] == Map(b, CategoryV1Of())[i];
      assert Map(a, Fingerprint.HashedOf())[i] == Map(b, Fingerprint.HashedOf())[i];
    }
    AlignedReports(Map(a, f), Map(b, f));
  }

  lemma CleanInColumn(ts: seq<Transaction>)
    requires Fingerprint.AllClean(ts) && |ts| <= Decimals.EXACT_COUNT
    ensures AllInColumn(ts)
  {
    forall t | t in ts
      ensures Decimals.InColumn(t.cents)
    {
      assert Fingerprint.Clean(t);
    }
  }

  ghost predicate AllInColumn(ts: seq<Transaction>) {
    |ts| <= Decimals.EXACT_COUNT && forall t :: t in ts ==> Decimals.InColumn(t.cents)
  }

  lemma ExactV1(ts: seq<Transaction>)
    requires AllInColumn(ts)
    ensures Exact(Map(ts, ClassifyV1()))
  {
    hide RuleIdV1, Rules.CategoryV1;
    var cs := Map(ts, ClassifyV1());
    forall c | c in cs
      ensures Decimals.InColumn(c.transaction.cents)
    {
      var i :| 0 <= i < |cs| && cs[i] == c;
      assert ts[i] in ts;
    }
  }

  /** Two loads of the same rows give the same report, up to the order of source ids. */
  lemma LoadsReportAlike(xs: seq<Transaction>, ys: seq<Transaction>)
    requires AllInColumn(xs) && multiset(xs) == multiset(ys)
    ensures ReportsAlike(xs, ys)
  {
    hide LineItems, ClassifyV1;
    MapPermutes(xs, ys, ClassifyV1());
    ExactV1(xs);
    ReportIgnoresOrder(Map(xs, ClassifyV1()), Map(ys, ClassifyV1()));
  }

  // ---- Consecutive months ----

  function InSpan(w: Calendar.Span): Transaction -> bool {
    (t: Transaction) => w.Has(Calendar.Instant(t.timestamp))
  }

  /** `list_for_period`: the rows of the inclusive window in timestamp order, ties in any order. */
  ghost predicate ListForPeriod(store: seq<Transaction>, w: Calendar.Span, r: seq<Transaction>) {
    Fingerprint.Load(r, Filter(store, InSpan(w)), Fingerprint.ByTime())
  }

  /** The first timestamp is earlier: by date, and then within the day. */
  predicate Earlier(s: Calendar.Timestamp, t: Calendar.Timestamp) {
    Calendar.Before(s.date, t.date) || (s.date == t.date && s.micro < t.micro)
  }

  lemma EarlierIsInstant(s: Calendar.Timestamp, t: Calendar.Timestamp)
    requires s.Valid() && t.Valid()
    ensures Earlier(s, t) <==> Calendar.Instant(s) < Calendar.Instant(t)
  {
    hide Calendar.Ordinal, Calendar.Before;
    Calendar.OrdinalKeepsOrder(s.date, t.date);
    Calendar.OrdinalKeepsOrder(t.date, s.date);
    var m, n := Calendar.Ordinal(s.date), Calendar.Ordinal(t.date);
    if m + 1 <= n { Calendar.DaysOrdered(m + 1, n); }
    if n + 1 <= m { Calendar.DaysOrdered(n + 1, m); }
  }

  lemma InWindowIffDated(p: Calendar.Period, t: Calendar.Timestamp)
    requires p.first.Valid() && p.last.Valid() && t.Valid()
    ensures Calendar.Window(p).Has(Calendar.Instant(t))
            <==> !Calendar.Before(t.date, p.first) && !Calendar.Before(p.last, t.date)
  {
    hide Calendar.Before, Calendar.Instant, Calendar.DaysInMonth;
    EarlierIsInstant(t, Calendar.Timestamp(p.first, 0));
    EarlierIsInstant(Calendar.Timestamp(p.last, Calendar.DAY - 1), t);
  }

  /**
   A load of a period holds exactly the stored rows dated from its first to its last day, each as
   often as it is stored, and none before an earlier one.
   */
  lemma LoadsTheDatedRows(store: seq<Transaction>, p: Calendar.Period, r: seq<Transaction>)
    requires p.first.Valid() && p.last.Valid() && AllStorable(store) && ListForPeriod(store, Calendar.Window(p), r)
    ensures forall t :: multiset(r)[t] ==
              if t in store && !Calendar.Before(t.timestamp.date, p.first) && !Calendar.Before(p.last, t.timestamp.date)
              then multiset(store)[t] else 0
    ensures forall i, j :: 0 <= i < j < |r| ==> !Earlier(r[j].timestamp, r[i].timestamp)
  {
    hide Calendar.Before, Calendar.Instant, Calendar.Window, Earlier, Decimals.InColumn, Calendar.DaysInMonth;
    var kept := Filter(store, InSpan(Calendar.Window(p)));
    PermutedLength(r, kept);
    forall t: Transaction
      ensures multiset(r)[t] ==
        if t in store && !Calendar.Before(t.timestamp.date, p.first) && !Calendar.Before(p.last, t.timestamp.date)
        then multiset(store)[t] else 0
    {
      FilterMultiset(store, InSpan(Calendar.Window(p)), t);
      if t in store {
        assert Storable(t);
        InWindowIffDated(p, t.timestamp);
      } else {
        assert t !in multiset(store);
      }
    }
    forall i, j | 0 <= i < j < |r|
      ensures !Earlier(r[j].timestamp, r[i].timestamp)
    {
      assert r[i] in kept && r[j] in kept;
      assert Storable(r[i]) && Storable(r[j]);
      EarlierIsInstant(r[j].timestamp, r[i].timestamp);
      assert Fingerprint.ByTime()(r[i]) <= Fingerprint.ByTime()(r[j]);
    }
  }

  /** The total, in cents, that a report shows for a key; zero when it shows none. */
  function ReportedCents(items: seq<LineItem>, k: Key): int {
    if items == [] then 0
    else if items[0].key == k && items[0].metric == TotalAmount then
      Decimals.Num(items[0].value) * 100 / Decimals.Den(items[0].value)
    else ReportedCents(items[1..], k)
  }

  function ReportedCount(items: seq<LineItem>, k: Key): nat {
    if items == [] then 0
    else if items[0].key == k && items[0].metric == TotalAmount then items[0].count
    else ReportedCount(items[1..], k)
  }

  lemma {:induction false} ReportedAbsent(items: seq<LineItem>, k: Key)
    requires forall r :: 0 <= r < |items| ==> items[r].key != k
    ensures ReportedCents(items, k) == 0 && ReportedCount(items, k) == 0
  {
    if items != [] {
      ReportedAbsent(items[1..], k);
    }
  }

  lemma {:induction false} ReportedAt(items: seq<LineItem>, k: Key, n: nat)
    requires n < |items| && items[n].key == k && items[n].metric == TotalAmount
    requires forall r :: 0 <= r < n ==> items[r].key != k
    ensures ReportedCents(items, k) == Decimals.Num(items[n].value) * 100 / Decimals.Den(items[n].value)
    ensures ReportedCount(items, k) == items[n].count
  {
    hide Decimals.Num, Decimals.Den;
    if n > 0 {
      ReportedAt(items[1..], k, n - 1);
    }
  }

  lemma ReportedWhere(cs: seq<Classified>, i: nat)
    requires i < |SortedKeys(cs)|
    ensures |LineItems(cs)| == 5 * |SortedKeys(cs)|
    ensures ReportedCount(LineItems(cs), SortedKeys(cs)[i]) == LineItems(cs)[5 * i].count
    ensures ReportedCents(LineItems(cs), SortedKeys(cs)[i])
            == Decimals.Num(LineItems(cs)[5 * i].value) * 100 / Decimals.Den(LineItems(cs)[5 * i].value)
  {
    hide LineItems, Decimals.Num, Decimals.Den, Group, SortedKeys, KeyLe, ReportedCents, ReportedCount;
    MetricNames();
    LineItemCount(cs);
    SortedKeysAreTheKeys(cs);
    ReportLayout(cs, i, 0);
    forall r | 0 <= r < 5 * i
      ensures LineItems(cs)[r].key != SortedKeys(cs)[i]
    {
      ReportLayout(cs, r / 5, r % 5);
      assert KeyLess(SortedKeys(cs)[r / 5], SortedKeys(cs)[i]);
    }
    ReportedAt(LineItems(cs), SortedKeys(cs)[i], 5 * i);
  }

  lemma ReportedNowhere(cs: seq<Classified>, k: Key)
    requires k !in SortedKeys(cs)
    ensures ReportedCents(LineItems(cs), k) == 0 && ReportedCount(LineItems(cs), k) == 0
  {
    hide LineItems, Group, SortedKeys, ReportedCents, ReportedCount;
    LineItemCount(cs);
    forall r | 0 <= r < |LineItems(cs)|
      ensures LineItems(cs)[r].key != k
    {
      ReportLayout(cs, r / 5, r % 5);
    }
    ReportedAbsent(LineItems(cs), k);
  }

  /** What a report shows for a key is the exact total and the number of its transactions. */
  lemma ReportedIsExact(cs: seq<Classified>, k: Key)
    requires Exact(cs)
    ensures ReportedCents(LineItems(cs), k) == GroupTotal(cs, k)
    ensures ReportedCount(LineItems(cs), k) == |Group(cs, k)|
  {
    hide *;
    GroupEmptyIff(cs, k);
    if k in SortedKeys(cs) {
      var i :| 0 <= i < |SortedKeys(cs)| && SortedKeys(cs)[i] == k;
      PresentIsExact(cs, i);
    } else {
      ReportedNowhere(cs, k);
      AbsentIsZero(cs, k);
    }
  }

  lemma AbsentIsZero(cs: seq<Classified>, k: Key)
    requires Group(cs, k) == []
    ensures GroupTotal(cs, k) == 0
  {
    hide Group;
  }

  lemma PresentIsExact(cs: seq<Classified>, i: nat)
    requires Exact(cs) && i < |SortedKeys(cs)|
    ensures var k := SortedKeys(cs)[i];
            && ReportedCents(LineItems(cs), k) == GroupTotal(cs, k)
            && ReportedCount(LineItems(cs), k) == |Group(cs, k)|
  {
    hide *;
    var k := SortedKeys(cs)[i];
    ReportedWhere(cs, i);
    ReportLayout(cs, i, 0);
    TotalRow(cs, i);
    ExactGroup(cs, k);
    TotalIsExact(k, Group(cs, k));
    TotalIsSum(cs, k);
    QuotientExact(LineItems(cs)[5 * i].value, GroupTotal(cs, k));
  }

  lemma TotalIsExact(k: Key, g: seq<Classified>)
    requires g != [] && Exact(g)
    ensures Decimals.Equals(Summarize(k, g).total, Sum(Amounts(g)), 100)
  {
    hide *;
    ValuesAreExact(k, g);
  }

  lemma QuotientExact(x: Decimals.Decimal, cents: int)
    requires Decimals.Equals(x, cents, 100)
    ensures Decimals.Num(x) * 100 / Decimals.Den(x) == cents
  {
    hide Decimals.Num, Decimals.Den;
    DivideExactly(Decimals.Num(x) * 100, Decimals.Den(x), cents);
  }

  lemma DivideExactly(n: int, d: int, q: int)
    requires d > 0 && n == q * d
    ensures n / d == q
  {
    if n / d < q {
      Decimals.MultiplesApart(n / d, q, d);
    } else if q < n / d {
      Decimals.MultiplesApart(q, n / d, d);
    }
  }

  lemma TotalRow(cs: seq<Classified>, i: nat)
    requires i < |SortedKeys(cs)| && |LineItems(cs)| == 5 * |SortedKeys(cs)|
    ensures var k := SortedKeys(cs)[i];
            Group(cs, k) != [] && LineItems(cs)[5 * i].value == Summarize(k, Group(cs, k)).total
  {
    hide *;
    RowIs(cs, i, 0);
    MetricNames();
    ItemValue(Summarize(SortedKeys(cs)[i], Group(cs, SortedKeys(cs)[i])), TotalAmount);
  }

  lemma GroupsAdd(a: seq<Transaction>, b: seq<Transaction>, c: seq<Transaction>, k: Key)
    requires multiset(c) == multiset(a) + multiset(b)
    ensures var f := ClassifyV1();
            && GroupTotal(Map(c, f), k) == GroupTotal(Map(a, f), k) + GroupTotal(Map(b, f), k)
            && |Group(Map(c, f), k)| == |Group(Map(a, f), k)| + |Group(Map(b, f), k)|
  {
    hide ClassifyV1, Filter, Map, Sum;
    var f := ClassifyV1();
    assert multiset(a + b) == multiset(c);
    MapPermutes(c, a + b, f);
    MapConcat(a, b, f);
    var ga, gb, gc := Group(Map(a, f), k), Group(Map(b, f), k), Group(Map(c, f), k);
    FilterPermutes(Map(c, f), Map(a + b, f), WithKey(k));
    FilterConcat(Map(a, f), Map(b, f), WithKey(k));
    PermutedLength(gc, ga + gb);
    MapPermutes(gc, ga + gb, CentsOf());
    MapConcat(ga, gb, CentsOf());
    SumPermutes(Amounts(gc), Amounts(ga) + Amounts(gb));
    SumConcat(Amounts(ga), Amounts(gb));
  }

  lemma SpanSplits(store: seq<Transaction>, u: Calendar.Span, v: Calendar.Span)
    requires u.lo <= u.hi && u.hi + 1 == v.lo && v.lo <= v.hi
    ensures multiset(Filter(store, InSpan(Calendar.Span(u.lo, v.hi))))
            == multiset(Filter(store, InSpan(u))) + multiset(Filter(store, InSpan(v)))
  {
    hide Calendar.Instant, Filter;
    forall t
      ensures multiset(Filter(store, InSpan(Calendar.Span(u.lo, v.hi))))[t]
           == multiset(Filter(store, InSpan(u)))[t] + multiset(Filter(store, InSpan(v)))[t]
    {
      FilterMultiset(store, InSpan(Calendar.Span(u.lo, v.hi)), t);
      FilterMultiset(store, InSpan(u), t);
      FilterMultiset(store, InSpan(v), t);
    }
  }

  /** The sum of what the monthly reports show for a key. */
  function CentsOverMonths(loads: seq<seq<Transaction>>, k: Key): int {
    if loads == [] then 0
    else CentsOverMonths(loads[..|loads| - 1], k) + ReportedCents(ItemsV1(loads[|loads| - 1]), k)
  }

  function CountOverMonths(loads: seq<seq<Transaction>>, k: Key): nat {
    if loads == [] then 0
    else CountOverMonths(loads[..|loads| - 1], k) + ReportedCount(ItemsV1(loads[|loads| - 1]), k)
  }

  ghost predicate LoadsOf(store: seq<Transaction>, ws: seq<Calendar.Span>, loads: seq<seq<Transaction>>) {
    |loads| == |ws| && forall i :: 0 <= i < |ws| ==> ListForPeriod(store, ws[i], loads[i])
  }

  lemma LoadInColumn(store: seq<Transaction>, w: Calendar.Span, r: seq<Transaction>)
    requires AllInColumn(store) && ListForPeriod(store, w, r)
    ensures AllInColumn(r)
  {
    hide InSpan;
    PermutedLength(r, Filter(store, InSpan(w)));
  }

  lemma ReportedV1(ts: seq<Transaction>, k: Key)
    requires AllInColumn(ts)
    ensures ReportedCents(ItemsV1(ts), k) == GroupTotal(Map(ts, ClassifyV1()), k)
    ensures ReportedCount(ItemsV1(ts), k) == |Group(Map(ts, ClassifyV1()), k)|
  {
    hide LineItems, ClassifyV1, Group, GroupTotal;
    ExactV1(ts);
    ReportedIsExact(Map(ts, ClassifyV1()), k);
  }

  /** One report over adjoining spans shows, key by key, the sum of the reports on each. */
  lemma {:induction false} SpansAddUp(
    store: seq<Transaction>, ws: seq<Calendar.Span>, loads: seq<seq<Transaction>>, whole: seq<Transaction>, k: Key)
    requires AllInColumn(store) && Calendar.Tiling(ws) && ws != [] && LoadsOf(store, ws, loads)
    requires ListForPeriod(store, Calendar.Span(ws[0].lo, ws[|ws| - 1].hi), whole)
    ensures ReportedCents(ItemsV1(whole), k) == CentsOverMonths(loads, k)
    ensures ReportedCount(ItemsV1(whole), k) == CountOverMonths(loads, k)
    decreases |ws|
  {
    hide ItemsV1, ClassifyV1, GroupTotal, Group, ReportedCents, ReportedCount, ListForPeriod, AllInColumn;
    var n := |ws| - 1;
    var last := loads[n];
    if n == 0 {
      OneSpan(store, ws[0], last, whole, k);
      assert Calendar.Span(ws[0].lo, ws[0].hi) == ws[0];
      assert loads[..0] == [];
    } else {
      var w := Calendar.Span(ws[0].lo, ws[n - 1].hi);
      var before := Sorting.StableSort(Filter(store, InSpan(w)), Fingerprint.RankLe(Fingerprint.ByTime()));
      LoadExists(store, w, before);
      assert ws[..n][n - 1] == ws[n - 1];
      FirstBeforeLast(ws, n - 1);
      SpansAddUp(store, ws[..n], loads[..n], before, k);
      TwoSpans(store, w, ws[n], before, last, whole, k);
    }
  }

  lemma OneSpan(
    store: seq<Transaction>, w: Calendar.Span, a: seq<Transaction>, c: seq<Transaction>, k: Key)
    requires AllInColumn(store) && ListForPeriod(store, w, a) && ListForPeriod(store, w, c)
    ensures ReportedCents(ItemsV1(c), k) == ReportedCents(ItemsV1(a), k)
    ensures ReportedCount(ItemsV1(c), k) == ReportedCount(ItemsV1(a), k)
  {
    hide ItemsV1, ClassifyV1, GroupTotal, Group, ReportedCents, ReportedCount, InSpan, Filter, AllInColumn;
    LoadInColumn(store, w, a);
    LoadInColumn(store, w, c);
    assert multiset(c) == multiset([]) + multiset(a);
    GroupsAdd([], a, c, k);
    NothingReported(k);
    ReportedV1(a, k);
    ReportedV1(c, k);
  }

  /** A report over two adjoining spans shows the sum of what the two reports show. */
  lemma TwoSpans(
    store: seq<Transaction>, u: Calendar.Span, v: Calendar.Span,
    a: seq<Transaction>, b: seq<Transaction>, c: seq<Transaction>, k: Key)
    requires AllInColumn(store) && u.lo <= u.hi && u.hi + 1 == v.lo && v.lo <= v.hi
    requires ListForPeriod(store, u, a) && ListForPeriod(store, v, b)
    requires ListForPeriod(store, Calendar.Span(u.lo, v.hi), c)
    ensures ReportedCents(ItemsV1(c), k) == ReportedCents(ItemsV1(a), k) + ReportedCents(ItemsV1(b), k)
    ensures ReportedCount(ItemsV1(c), k) == ReportedCount(ItemsV1(a), k) + ReportedCount(ItemsV1(b), k)
  {
    hide ItemsV1, ClassifyV1, GroupTotal, Group, ReportedCents, ReportedCount, InSpan, Filter, AllInColumn;
    LoadInColumn(store, u, a);
    LoadInColumn(store, v, b);
    LoadInColumn(store, Calendar.Span(u.lo, v.hi), c);
    SpanSplits(store, u, v);
    GroupsAdd(a, b, c, k);
    ReportedV1(a, k);
    ReportedV1(b, k);
    ReportedV1(c, k);
  }

  lemma NothingReported(k: Key)
    ensures GroupTotal(Map([], ClassifyV1()), k) == 0 && |Group(Map([], ClassifyV1()), k)| == 0
  {
  }

  lemma FirstBeforeLast(ws: seq<Calendar.Span>, n: nat)
    requires Calendar.Tiling(ws) && n < |ws|
    ensures ws[0].lo <= ws[n].hi
  {
    if n > 0 {
      Calendar.TilesOrdered(ws, 0, n);
    }
  }

  /** Sorting the filtered rows by time is one way to load them. */
  lemma LoadExists(store: seq<Transaction>, w: Calendar.Span, r: seq<Transaction>)
    requires r == Sorting.StableSort(Filter(store, InSpan(w)), Fingerprint.RankLe(Fingerprint.ByTime()))
    ensures ListForPeriod(store, w, r)
  {
    hide Calendar.Instant;
    var le := Fingerprint.RankLe(Fingerprint.ByTime());
    Sorting.StableSortPermutes(Filter(store, InSpan(w)), le);
    Sorting.StableSortSorts(Filter(store, InSpan(w)), le);
    assert forall i, j :: 0 <= i < j < |r| ==> le(r[i], r[j]);
  }

  ghost predicate InColumns(ts: seq<Transaction>) {
    forall t :: t in ts ==> Decimals.InColumn(t.cents)
  }

  lemma {:induction false} FilterInside(xs: seq<Transaction>, p: Transaction -> bool, q: Transaction -> bool)
    requires forall t :: q(t) ==> p(t)
    ensures Filter(Filter(xs, p), q) == Filter(xs, q)
  {
    if xs != [] {
      FilterInside(xs[1..], p, q);
      FilterConcat(if p(xs[0]) then [xs[0]] else [], Filter(xs[1..], p), q);
      assert Filter([xs[0]], q) == if q(xs[0]) then [xs[0]] else [];
    }
  }

  lemma LoadInside(store: seq<Transaction>, u: Calendar.Span, w: Calendar.Span, r: seq<Transaction>)
    requires u.lo <= w.lo && w.hi <= u.hi && ListForPeriod(store, w, r)
    ensures ListForPeriod(Filter(store, InSpan(u)), w, r)
  {
    hide Calendar.Instant, Filter;
    FilterInside(store, InSpan(u), InSpan(w));
  }

  lemma LoadsInside(
    store: seq<Transaction>, ws: seq<Calendar.Span>, loads: seq<seq<Transaction>>, whole: seq<Transaction>)
    requires Calendar.Tiling(ws) && ws != [] && LoadsOf(store, ws, loads)
    requires ListForPeriod(store, Calendar.Span(ws[0].lo, ws[|ws| - 1].hi), whole)
    ensures var u := Calendar.Span(ws[0].lo, ws[|ws| - 1].hi);
            LoadsOf(Filter(store, InSpan(u)), ws, loads) && ListForPeriod(Filter(store, InSpan(u)), u, whole)
  {
    hide ListForPeriod, Filter, InSpan;
    var u := Calendar.Span(ws[0].lo, ws[|ws| - 1].hi);
    LoadInside(store, u, u, whole);
    forall i | 0 <= i < |ws|
      ensures ListForPeriod(Filter(store, InSpan(u)), ws[i], loads[i])
    {
      if i > 0 { Calendar.TilesOrdered(ws, 0, i); }
      if i < |ws| - 1 { Calendar.TilesOrdered(ws, i, |ws| - 1); }
      LoadInside(store, u, ws[i], loads[i]);
    }
  }

  lemma SpanInColumn(store: seq<Transaction>, u: Calendar.Span, whole: seq<Transaction>)
    requires InColumns(store) && |whole| <= Decimals.EXACT_COUNT && ListForPeriod(store, u, whole)
    ensures AllInColumn(Filter(store, InSpan(u)))
  {
    hide InSpan;
    PermutedLength(whole, Filter(store, InSpan(u)));
  }

  /**
   Reports fired once in each of consecutive months add up: for every category and currency,
   their totals and counts sum to those of one report over the whole span, whatever order the
   database returned the rows in.
   */
  lemma MonthlyReportsAddUp(
    store: seq<Transaction>, refs: seq<Calendar.Date>, month: nat, ws: seq<Calendar.Span>,
    loads: seq<seq<Transaction>>, whole: seq<Transaction>, k: Key)
    requires InColumns(store) && |whole| <= Decimals.EXACT_COUNT
    requires refs != [] && Calendar.ConsecutiveMonths(refs, month)
    requires Calendar.ResolvesTo(refs, ws) && LoadsOf(store, ws, loads)
    requires ListForPeriod(store, Calendar.Span(ws[0].lo, ws[|ws| - 1].hi), whole)
    ensures ReportedCents(ItemsV1(whole), k) == CentsOverMonths(loads, k)
    ensures ReportedCount(ItemsV1(whole), k) == CountOverMonths(loads, k)
  {
    hide ItemsV1, CentsOverMonths, CountOverMonths, ReportedCents, ReportedCount, ListForPeriod, Calendar.Resolve,
         InColumns, AllInColumn, LoadsOf, Filter;
    var tiles := Calendar.FiringsTileTime(refs, month);
    assert forall i :: 0 <= i < |refs| ==> ws[i] == tiles[i];
    assert ws == tiles;
    var u := Calendar.Span(ws[0].lo, ws[|ws| - 1].hi);
    SpanInColumn(store, u, whole);
    LoadsInside(store, ws, loads, whole);
    SpansAddUp(Filter(store, InSpan(u)), ws, loads, whole, k);
  }
}
