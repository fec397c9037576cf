/**
 The canonical text an input fingerprint is the SHA-256 of: what it determines, what it leaves
 open, and exactly when it is independent of the order the database returned the rows in.
 */
module Fingerprint {
  import opened Base
  import opened Sorting
  import opened Strings
  import opened Transactions
  import Calendar

  function LineOf(): Transaction -> string {
    (t: Transaction) =>
      Join('|', [t.externalId, Calendar.IsoText(t.timestamp), AmountText(t.cents), t.currency, t.counterparty])
  }

  function ById(): (Transaction, Transaction) -> bool {
    (a: Transaction, b: Transaction) => StringLe(a.externalId, b.externalId)
  }

  /** `sorted(transactions, key=external_id)`. */
  function Ordered(ts: seq<Transaction>): seq<Transaction> {
    StableSort(ts, ById())
  }

  function Lines(ts: seq<Transaction>): seq<string> {
    Map(Ordered(ts), LineOf())
  }

  /** The text that is hashed. */
  function CanonicalText(ts: seq<Transaction>): string {
    if ts == [] then "EMPTY_BATCH" else Join('\n', Lines(ts))
  }

  // ---- What the text determines ----

  /** The fields that enter the text: the category hint does not. */
  datatype Hashed = Hashed(
    id: string, timestamp: Calendar.Timestamp, cents: int, currency: string, counterparty: string)

  function HashedOf(): Transaction -> Hashed {
    (t: Transaction) => Hashed(t.externalId, t.timestamp, t.cents, t.currency, t.counterparty)
  }

  /**
   No line break occurs in a text field, and no bar in the id or the currency. A bar in the
   counterparty does no harm: it is the last field of its line.
   */
  ghost predicate Clean(t: Transaction) {
    && Storable(t)
    && Free(t.externalId, '|') && Free(t.currency, '|')
    && Free(t.externalId, '\n') && Free(t.currency, '\n') && Free(t.counterparty, '\n')
  }

  ghost predicate AllClean(ts: seq<Transaction>) {
    forall t :: t in ts ==> Clean(t)
  }

  function Fields(t: Transaction): seq<string> {
    [t.externalId, Calendar.IsoText(t.timestamp), AmountText(t.cents), t.currency, t.counterparty]
  }

  lemma FieldsFree(t: Transaction, c: char)
    requires Clean(t) && (c == '|' || c == '\n')
    ensures forall i :: 0 <= i < 4 ==> Free(Fields(t)[i], c)
    ensures c == '\n' ==> Free(Fields(t)[4], c)
  {
    hide Calendar.IsoText, AmountText;
    Calendar.IsoTextFree(t.timestamp, c);
    AmountTextFree(t.cents, c);
  }

  lemma LineInjective(a: Transaction, b: Transaction)
    requires Clean(a) && Clean(b) && LineOf()(a) == LineOf()(b)
    ensures HashedOf()(a) == HashedOf()(b)
  {
    hide Calendar.IsoText, AmountText, Clean;
    FieldsFree(a, '|');
    FieldsFree(b, '|');
    JoinInjectiveLast('|', Fields(a), Fields(b));
    assert Fields(a)[0] == Fields(b)[0] && Fields(a)[1] == Fields(b)[1] && Fields(a)[2] == Fields(b)[2];
    assert Fields(a)[3] == Fields(b)[3] && Fields(a)[4] == Fields(b)[4];
    CleanIsValid(a);
    CleanIsValid(b);
    Calendar.IsoTextInjective(a.timestamp, b.timestamp);
    AmountTextInjective(a.cents, b.cents);
  }

  lemma CleanIsValid(t: Transaction)
    requires Clean(t)
    ensures t.timestamp.Valid()
  {
  }

  lemma LineFree(t: Transaction)
    requires Clean(t)
    ensures Free(LineOf()(t), '\n')
  {
    FieldsFree(t, '\n');
    JoinFree('|', Fields(t), '\n');
  }

  lemma PrefixHas(a: string, b: string, c: char)
    requires a <= b && c in a
    ensures c in b
  {
    var i :| 0 <= i < |a| && a[i] == c;
    assert b[i] == c;
  }

  lemma EmptyHasNoBar()
    ensures '|' !in CanonicalText([])
  {
  }

  lemma LineHasBar(t: Transaction)
    ensures '|' in LineOf()(t)
  {
    var fs := Fields(t);
    assert Join('|', fs) == fs[0] + ['|'] + Join('|', fs[1..]);
    assert Join('|', fs)[|fs[0]|] == '|';
  }

  /** Every line holds a delimiter, so no input has the text of the empty one. */
  lemma TextHasBar(ts: seq<Transaction>)
    requires ts != []
    ensures CanonicalText(ts) != CanonicalText([])
  {
    hide StableSort, IsDigit;
    StableSortPermutes(ts, ById());
    PermutedLength(Ordered(ts), ts);
    LineHasBar(Ordered(ts)[0]);
    PrefixHas(Lines(ts)[0], CanonicalText(ts), '|');
    EmptyHasNoBar();
  }

  /** On clean inputs the text determines the hashed fields of every transaction, and nothing else. */
  lemma TextDetermines(xs: seq<Transaction>, ys: seq<Transaction>)
    requires AllClean(xs) && AllClean(ys)
    ensures CanonicalText(xs) == CanonicalText(ys) <==> Map(Ordered(xs), HashedOf()) == Map(Ordered(ys), HashedOf())
  {
    StableSortPermutes(xs, ById());
    StableSortPermutes(ys, ById());
    PermutedLength(Ordered(xs), xs);
    PermutedLength(Ordered(ys), ys);
    if xs != [] { TextHasBar(xs); }
    if ys != [] { TextHasBar(ys); }
    if xs != [] && ys != [] {
      LinesDetermine(Ordered(xs), Ordered(ys));
    }
  }

  lemma LinesDetermine(xs: seq<Transaction>, ys: seq<Transaction>)
    requires AllClean(xs) && AllClean(ys) && xs != [] && ys != []
    ensures Join('\n', Map(xs, LineOf())) == Join('\n', Map(ys, LineOf()))
            <==> Map(xs, HashedOf()) == Map(ys, HashedOf())
  {
    var a, b := Map(xs, LineOf()), Map(ys, LineOf());
    forall i | 0 <= i < |xs| ensures Free(a[i], '\n') { LineFree(xs[i]); }
    forall i | 0 <= i < |ys| ensures Free(b[i], '\n') { LineFree(ys[i]); }
    if Join('\n', a) == Join('\n', b) {
      JoinInjective('\n', a, b);
      forall i | 0 <= i < |xs|
        ensures HashedOf()(xs[i]) == HashedOf()(ys[i])
      {
        assert a[i] == b[i];
        LineInjective(xs[i], ys[i]);
      }
      assert Map(xs, HashedOf()) == Map(ys, HashedOf());
    }
    if Map(xs, HashedOf()) == Map(ys, HashedOf()) {
      SameHashedSameLines(xs, ys);
    }
  }

  lemma SameHashedSameLines(xs: seq<Transaction>, ys: seq<Transaction>)
    requires Map(xs, HashedOf()) == Map(ys, HashedOf())
    ensures Map(xs, LineOf()) == Map(ys, LineOf())
  {
    assert |xs| == |Map(xs, HashedOf())| == |ys|;
    forall i | 0 <= i < |xs|
      ensures LineOf()(xs[i]) == LineOf()(ys[i])
    {
      assert Map(xs, HashedOf())[i] == Map(ys, HashedOf())[i];
    }
  }

  /** A bar in the id can be read as the end of it: what follows are then the next fields. */
  lemma IdDelimitersAreAmbiguous(t: Transaction, currency: string)
    ensures var stamp := [Calendar.IsoText(t.timestamp), AmountText(t.cents)];
            var a := t.(currency := currency, counterparty := Join('|', stamp + [t.currency, t.counterparty]));
            var b := t.(externalId := Join('|', [t.externalId] + stamp + [currency]));
            HashedOf()(a) != HashedOf()(b) && CanonicalText([a]) == CanonicalText([b])
  {
    hide Calendar.IsoText, AmountText, StableSort, Join;
    var stamp := [Calendar.IsoText(t.timestamp), AmountText(t.cents)];
    var head, tail := [t.externalId] + stamp + [currency], stamp + [t.currency, t.counterparty];
    var a := t.(currency := currency, counterparty := Join('|', tail));
    var b := t.(externalId := Join('|', head));
    SingletonText(a);
    SingletonText(b);
    JoinNested('|', head, tail);
    assert Fields(a) == head + [Join('|', tail)] && Fields(b) == [Join('|', head)] + tail;
    LongerId(t.externalId, stamp + [currency]);
    assert head == [t.externalId] + (stamp + [currency]);
  }

  lemma LongerId(id: string, more: seq<string>)
    requires more != []
    ensures |Join('|', [id] + more)| > |id|
  {
    assert ([id] + more)[1..] == more;
  }

  lemma SingletonText(t: Transaction)
    ensures CanonicalText([t]) == LineOf()(t)
  {
    assert StableSort([t][1..], ById()) == [];
    assert Ordered([t]) == [t];
  }

  lemma LineAppends(t: Transaction, more: string)
    ensures LineOf()(t.(counterparty := t.counterparty + more)) == LineOf()(t) + more
  {
    hide Join, Calendar.IsoText, AmountText;
    var u := t.(counterparty := t.counterparty + more);
    var head := [t.externalId, Calendar.IsoText(t.timestamp), AmountText(t.cents), t.currency];
    JoinAppend('|', head, t.counterparty, more);
    assert Fields(u) == head + [t.counterparty + more] && Fields(t) == head + [t.counterparty];
  }

  lemma PairText(x: Transaction, y: Transaction)
    requires ById()(x, y)
    ensures CanonicalText([x, y]) == LineOf()(x) + ("\n" + LineOf()(y))
  {
    hide LineOf, StringLe, Join;
    assert [x, y][1..] == [y] && [y][1..] == [];
    assert StableSort([y], ById()) == [y];
    assert Ordered([x, y]) == [x, y];
    var ls := Lines([x, y]);
    assert ls == [LineOf()(x), LineOf()(y)];
    JoinTwo('\n', LineOf()(x), LineOf()(y));
    Regroup(LineOf()(x), LineOf()(y));
  }

  lemma JoinTwo(sep: char, a: string, b: string)
    ensures Join(sep, [a, b]) == a + [sep] + b
  {
    assert [a, b][1..] == [b];
  }

  lemma Regroup(a: string, b: string)
    ensures a + ("\n" + b) == a + ['\n'] + b
  {
  }

  // ---- Order of loading ----

  ghost predicate Ranked(ts: seq<Transaction>, rank: Transaction -> int) {
    forall i, j :: 0 <= i < j < |ts| ==> rank(ts[i]) <= rank(ts[j])
  }

  /**
   A load lists the rows with increasing rank. For the database the rank is the timestamp, and
   ties come in any order; for an arbitrary list every rank is the same.
   */
  ghost predicate Load(r: seq<Transaction>, rows: seq<Transaction>, rank: Transaction -> int) {
    multiset(r) == multiset(rows) && Ranked(r, rank)
  }

  function ByTime(): Transaction -> int {
    (t: Transaction) => Calendar.Instant(t.timestamp)
  }

  function Unordered(): Transaction -> int {
    (t: Transaction) => 0
  }

  function RankLe(rank: Transaction -> int): (Transaction, Transaction) -> bool {
    (a: Transaction, b: Transaction) => rank(a) <= rank(b)
  }

  /** Rows that neither loading nor sorting by id puts in order. */
  predicate Tied(x: Transaction, y: Transaction, rank: Transaction -> int) {
    x.externalId == y.externalId && rank(x) == rank(y)
  }

  /** The two lines give one text in either order. */
  predicate Commute(x: Transaction, y: Transaction) {
    LineOf()(x) + ("\n" + LineOf()(y)) == LineOf()(y) + ("\n" + LineOf()(x))
  }

  ghost predicate TiesCommute(rows: seq<Transaction>, rank: Transaction -> int) {
    forall x, y :: x in rows && y in rows && Tied(x, y, rank) ==> Commute(x, y)
  }

  ghost predicate TiesAgree(rows: seq<Transaction>, rank: Transaction -> int) {
    forall x, y :: x in rows && y in rows && Tied(x, y, rank) ==> HashedOf()(x) == HashedOf()(y)
  }

  /** Every load of the rows has the same hashed text. */
  ghost predicate LoadOrderFree(rows: seq<Transaction>, rank: Transaction -> int) {
    forall r, s :: Load(r, rows, rank) && Load(s, rows, rank) ==> CanonicalText(r) == CanonicalText(s)
  }

  // ---- The text as blocks ----

  function BlockOf(t: Transaction): string {
    LineOf()(t) + "\n"
  }

  function Blocks(ts: seq<Transaction>): string {
    if ts == [] then "" else BlockOf(ts[0]) + Blocks(ts[1..])
  }

  lemma {:induction false} BlocksConcat(xs: seq<Transaction>, ys: seq<Transaction>)
    ensures Blocks(xs + ys) == Blocks(xs) + Blocks(ys)
  {
    hide LineOf;
    if xs == [] {
      assert xs + ys == ys;
    } else {
      assert (xs + ys)[1..] == xs[1..] + ys;
      BlocksConcat(xs[1..], ys);
    }
  }

  lemma {:induction false} JoinIsBlocks(ts: seq<Transaction>)
    requires ts != []
    ensures Join('\n', Map(ts, LineOf())) + "\n" == Blocks(ts)
  {
    hide LineOf;
    var ls := Map(ts, LineOf());
    if |ts| > 1 {
      JoinIsBlocks(ts[1..]);
      assert ls[1..] == Map(ts[1..], LineOf());
      assert Join('\n', ls) == ls[0] + ['\n'] + Join('\n', ls[1..]);
      assert Join('\n', ls) + "\n" == ls[0] + "\n" + (Join('\n', ls[1..]) + "\n");
    } else {
      assert ts[1..] == [] && Blocks(ts[1..]) == "";
      assert Blocks(ts) == BlockOf(ts[0]) + "" == BlockOf(ts[0]);
    }
  }

  /** Two inputs of one length have one text exactly if their ordered blocks agree. */
  lemma TextIsBlocks(r: seq<Transaction>, s: seq<Transaction>)
    requires multiset(r) == multiset(s)
    ensures CanonicalText(r) == CanonicalText(s) <==> Blocks(Ordered(r)) == Blocks(Ordered(s))
  {
    hide LineOf, StableSort;
    PermutedLength(r, s);
    if r != [] {
      StableSortPermutes(r, ById());
      StableSortPermutes(s, ById());
      PermutedLength(Ordered(r), r);
      PermutedLength(Ordered(s), s);
      JoinIsBlocks(Ordered(r));
      JoinIsBlocks(Ordered(s));
      AppendInjective(CanonicalText(r), CanonicalText(s));
    }
  }

  lemma AppendInjective(a: string, b: string)
    ensures a + "\n" == b + "\n" <==> a == b
  {
    if a + "\n" == b + "\n" {
      SplitAt(a, "\n", b, "\n");
    }
  }

  lemma CommuteIsBlocks(x: Transaction, y: Transaction)
    ensures Commute(x, y) <==> BlockOf(x) + BlockOf(y) == BlockOf(y) + BlockOf(x)
  {
    hide LineOf;
    var u, v := LineOf()(x) + ("\n" + LineOf()(y)), LineOf()(y) + ("\n" + LineOf()(x));
    assert BlockOf(x) + BlockOf(y) == u + "\n" && BlockOf(y) + BlockOf(x) == v + "\n";
    AppendInjective(u, v);
  }

  // ---- Sorting a load by id orders it by id and rank ----

  function IdThenRank(rank: Transaction -> int): (Transaction, Transaction) -> bool {
    (a: Transaction, b: Transaction) =>
      if a.externalId == b.externalId then rank(a) <= rank(b) else StringLe(a.externalId, b.externalId)
  }

  lemma IdThenRankTies(x: Transaction, y: Transaction, rank: Transaction -> int)
    requires IdThenRank(rank)(x, y) && IdThenRank(rank)(y, x)
    ensures Tied(x, y, rank)
  {
    if x.externalId != y.externalId {
      StringLeAntisymmetric(x.externalId, y.externalId);
    }
  }

  lemma ByIdIsPreorder()
    ensures TotalPreorder(ById())
  {
    forall a: Transaction, b: Transaction
      ensures ById()(a, b) || ById()(b, a)
    {
      StringLeTotal(a.externalId, b.externalId);
    }
    forall a: Transaction, b: Transaction, c: Transaction | ById()(a, b) && ById()(b, c)
      ensures ById()(a, c)
    {
      StringLeTransitive(a.externalId, b.externalId, c.externalId);
    }
  }

  lemma HeadFirst(x: Transaction, rest: seq<Transaction>, rank: Transaction -> int)
    requires forall j :: 0 <= j < |rest| ==> rank(x) <= rank(rest[j])
    requires Ranked(rest, rank)
    ensures Ranked([x] + rest, rank)
  {
  }

  lemma {:induction false} FilterKeepsOrder(xs: seq<Transaction>, p: Transaction -> bool, rank: Transaction -> int)
    requires Ranked(xs, rank)
    ensures Ranked(Filter(xs, p), rank)
  {
    if xs != [] {
      assert Ranked(xs[1..], rank);
      FilterKeepsOrder(xs[1..], p, rank);
      var rest := Filter(xs[1..], p);
      assert Filter(xs, p) == (if p(xs[0]) then [xs[0]] else []) + rest;
      forall j | 0 <= j < |rest|
        ensures rank(xs[0]) <= rank(rest[j])
      {
        assert rest[j] in xs[1..];
        var k :| 0 <= k < |xs| - 1 && xs[1..][k] == rest[j];
        assert xs[k + 1] == rest[j];
      }
      HeadFirst(xs[0], rest, rank);
    }
  }

  /** Two members of a filtered list stand in it in the order they stood in before. */
  lemma FilterPositions(xs: seq<Transaction>, p: Transaction -> bool, i: nat, j: nat) returns (a: nat, b: nat)
    requires i < j < |xs| && p(xs[i]) && p(xs[j])
    ensures a < b < |Filter(xs, p)| && Filter(xs, p)[a] == xs[i] && Filter(xs, p)[b] == xs[j]
  {
    hide Filter;
    var before := Filter(xs[..j], p);
    FilterConcat(xs[..j], xs[j..], p);
    assert xs == xs[..j] + xs[j..];
    assert xs[..j][i] in before;
    a :| 0 <= a < |before| && before[a] == xs[i];
    b := |before|;
    FilterHead(xs[j..], p);
  }

  lemma FilterHead(xs: seq<Transaction>, p: Transaction -> bool)
    requires xs != [] && p(xs[0])
    ensures Filter(xs, p) != [] && Filter(xs, p)[0] == xs[0]
  {
  }

  function WithId(id: string): Transaction -> bool {
    (t: Transaction) => t.externalId == id
  }

  /** Sorting a load stably by id sorts it by id and rank. */
  lemma OrderedByKey(r: seq<Transaction>, rank: Transaction -> int)
    requires Ranked(r, rank)
    ensures SortedBy(Ordered(r), IdThenRank(rank))
  {
    ByIdIsPreorder();
    StableSortSorts(r, ById());
    var s := Ordered(r);
    forall i, j | 0 <= i < j < |s|
      ensures IdThenRank(rank)(s[i], s[j])
    {
      assert ById()(s[i], s[j]);
      if s[i].externalId == s[j].externalId {
        var p := WithId(s[i].externalId);
        StringLeTotal(s[i].externalId, s[i].externalId);
        StableSortIsStable(r, ById(), p);
        FilterKeepsOrder(r, p, rank);
        var a, b := FilterPositions(s, p, i, j);
      }
    }
  }

  // ---- If ties commute, every load has the same text ----

  /** A block that commutes with all the others can be moved to the front. */
  lemma {:induction false} MoveToFront(xs: seq<Transaction>, y: Transaction)
    requires forall x :: x in xs ==> Commute(x, y)
    ensures Blocks(xs) + BlockOf(y) == BlockOf(y) + Blocks(xs)
  {
    hide Commute, BlockOf;
    if xs != [] {
      MoveToFront(xs[1..], y);
      CommuteIsBlocks(xs[0], y);
      var a, b, rest := BlockOf(xs[0]), BlockOf(y), Blocks(xs[1..]);
      assert (a + rest) + b == a + (rest + b) == a + (b + rest) == (a + b) + rest == (b + a) + rest == b + (a + rest);
    }
  }

  /** Sorted permutations of rows whose ties commute have the same blocks. */
  lemma {:induction false} SameBlocks(xs: seq<Transaction>, ys: seq<Transaction>, rank: Transaction -> int)
    requires multiset(xs) == multiset(ys) && TiesCommute(xs, rank)
    requires SortedBy(xs, IdThenRank(rank)) && SortedBy(ys, IdThenRank(rank))
    ensures Blocks(xs) == Blocks(ys)
    decreases |xs|
  {
    hide Commute, BlockOf, IdThenRank;
    PermutedLength(xs, ys);
    if xs != [] {
      var i := Removed(xs, ys);
      var rest := ys[..i] + ys[i + 1..];
      BeforeIsTied(xs, ys, i, rank);
      MoveToFront(ys[..i], ys[i]);
      assert ys == ys[..i] + [ys[i]] + ys[i + 1..];
      SplitBlocks(ys, i);
      SameBlocks(xs[1..], rest, rank);
    }
  }

  lemma SplitBlocks(ys: seq<Transaction>, i: nat)
    requires i < |ys| && Blocks(ys[..i]) + BlockOf(ys[i]) == BlockOf(ys[i]) + Blocks(ys[..i])
    ensures Blocks(ys) == BlockOf(ys[i]) + Blocks(ys[..i] + ys[i + 1..])
  {
    hide BlockOf;
    assert ys == ys[..i] + ys[i..];
    BlocksConcat(ys[..i], ys[i..]);
    assert ys[i..][1..] == ys[i + 1..];
    BlocksConcat(ys[..i], ys[i + 1..]);
    Rotate(Blocks(ys[..i]), BlockOf(ys[i]), Blocks(ys[i + 1..]));
  }

  lemma Rotate(a: string, b: string, c: string)
    requires a + b == b + a
    ensures a + (b + c) == b + (a + c)
  {
    assert a + (b + c) == (a + b) + c && (b + a) + c == b + (a + c);
  }

  /** What stands before the head of one sorted permutation in another is tied with it. */
  lemma BeforeIsTied(xs: seq<Transaction>, ys: seq<Transaction>, i: nat, rank: Transaction -> int)
    requires multiset(xs) == multiset(ys) && TiesCommute(xs, rank)
    requires SortedBy(xs, IdThenRank(rank)) && SortedBy(ys, IdThenRank(rank))
    requires xs != [] && i < |ys| && ys[i] == xs[0]
    ensures forall x :: x in ys[..i] ==> Commute(x, ys[i])
  {
    hide Commute;
    PermutedLength(xs, ys);
    forall x | x in ys[..i]
      ensures Commute(x, ys[i])
    {
      var j :| 0 <= j < i && ys[j] == x;
      assert x in xs;
      var k :| 0 <= k < |xs| && xs[k] == x;
      StringLeTotal(x.externalId, x.externalId);
      assert IdThenRank(rank)(ys[j], ys[i]);
      assert k > 0 ==> IdThenRank(rank)(xs[0], xs[k]);
      IdThenRankTies(x, ys[i], rank);
    }
  }

  lemma CommutingTiesFixText(rows: seq<Transaction>, rank: Transaction -> int, r: seq<Transaction>, s: seq<Transaction>)
    requires TiesCommute(rows, rank) && Load(r, rows, rank) && Load(s, rows, rank)
    ensures CanonicalText(r) == CanonicalText(s)
  {
    hide CanonicalText, Blocks, IdThenRank, StableSort, Commute;
    StableSortPermutes(r, ById());
    StableSortPermutes(s, ById());
    OrderedByKey(r, rank);
    OrderedByKey(s, rank);
    PermutedLength(Ordered(r), rows);
    SameBlocks(Ordered(r), Ordered(s), rank);
    TextIsBlocks(r, s);
  }

  // ---- If every load has the same text, ties commute ----

  lemma RankLeIsPreorder(rank: Transaction -> int)
    ensures TotalPreorder(RankLe(rank))
  {
  }

  lemma SortedIsLoad(start: seq<Transaction>, rows: seq<Transaction>, rank: Transaction -> int)
    requires multiset(start) == multiset(rows)
    ensures Load(StableSort(start, RankLe(rank)), rows, rank)
  {
    var r := StableSort(start, RankLe(rank));
    RankLeIsPreorder(rank);
    StableSortPermutes(start, RankLe(rank));
    StableSortSorts(start, RankLe(rank));
    assert forall i, j :: 0 <= i < j < |r| ==> RankLe(rank)(r[i], r[j]);
  }

  lemma Extract(rows: seq<Transaction>, x: Transaction, y: Transaction) returns (rest: seq<Transaction>)
    requires x in rows && y in rows && x != y
    ensures multiset(rows) == multiset([x, y] + rest) == multiset([y, x] + rest)
  {
    var others := TakeOut(rows, x);
    assert y in multiset(rows);
    assert y in others;
    rest := TakeOut(others, y);
    assert multiset([x, y] + rest) == multiset{x, y} + multiset(rest);
    assert multiset([y, x] + rest) == multiset{x, y} + multiset(rest);
  }

  lemma TakeOut(rows: seq<Transaction>, x: Transaction) returns (rest: seq<Transaction>)
    requires x in rows
    ensures multiset(rows) == multiset{x} + multiset(rest)
  {
    var i :| 0 <= i < |rows| && rows[i] == x;
    rest := rows[..i] + rows[i + 1..];
    assert rows == rows[..i] + [x] + rows[i + 1..];
  }

  /** Two loads whose ordered forms differ in one swapped pair. */
  lemma SwappedLoads(rows: seq<Transaction>, rank: Transaction -> int, x: Transaction, y: Transaction)
    returns (r: seq<Transaction>, s: seq<Transaction>, c: seq<Transaction>, d: seq<Transaction>)
    requires x in rows && y in rows && x != y && Tied(x, y, rank)
    ensures Load(r, rows, rank) && Load(s, rows, rank)
    ensures Ordered(r) == c + ([x, y] + d) && Ordered(s) == c + ([y, x] + d)
  {
    hide StableSort, StringLe;
    var rest := Extract(rows, x, y);
    RankLeIsPreorder(rank);
    ByIdIsPreorder();
    var a, b := SwapSurvives([], x, y, rest, RankLe(rank));
    assert [] + ([x, y] + rest) == [x, y] + rest && [] + ([y, x] + rest) == [y, x] + rest;
    r, s := a + ([x, y] + b), a + ([y, x] + b);
    SortedIsLoad([x, y] + rest, rows, rank);
    SortedIsLoad([y, x] + rest, rows, rank);
    assert ById()(x, y) && ById()(y, x) by {
      StringLeTotal(x.externalId, y.externalId);
    }
    c, d := SwapSurvives(a, x, y, b, ById());
  }

  lemma PairInside(c: seq<Transaction>, x: Transaction, y: Transaction, d: seq<Transaction>)
    ensures Blocks(c + ([x, y] + d)) == Blocks(c) + ((BlockOf(x) + BlockOf(y)) + Blocks(d))
  {
    hide BlockOf;
    BlocksConcat(c, [x, y] + d);
    BlocksConcat([x, y], d);
    assert [x, y][1..] == [y] && [y][1..] == [];
    assert Blocks([y]) == BlockOf(y) + Blocks([]) == BlockOf(y);
  }

  lemma FreeLoadsCommute(rows: seq<Transaction>, rank: Transaction -> int, x: Transaction, y: Transaction)
    requires LoadOrderFree(rows, rank) && x in rows && y in rows && Tied(x, y, rank)
    ensures Commute(x, y)
  {
    hide CanonicalText, Blocks, BlockOf, Commute, Ordered;
    if x == y {
      SameCommutes(x);
    } else {
      var r, s, c, d := SwappedLoads(rows, rank, x, y);
      assert CanonicalText(r) == CanonicalText(s);
      TextIsBlocks(r, s);
      PairInside(c, x, y, d);
      PairInside(c, y, x, d);
      var u, v := BlockOf(x) + BlockOf(y), BlockOf(y) + BlockOf(x);
      SplitAt(Blocks(c), u + Blocks(d), Blocks(c), v + Blocks(d));
      SplitAt(u, Blocks(d), v, Blocks(d));
      CommuteIsBlocks(x, y);
    }
  }

  lemma SameCommutes(x: Transaction)
    ensures Commute(x, x)
  {
  }

  // ---- Exactly when the fingerprint ignores load order ----

  /**
   The hashed text is the same for every load exactly if the lines of any two rows with the same
   id and rank give one text in either order.
   */
  lemma LoadOrderFreeIff(rows: seq<Transaction>, rank: Transaction -> int)
    ensures LoadOrderFree(rows, rank) <==> TiesCommute(rows, rank)
  {
    hide CanonicalText, Commute;
    if TiesCommute(rows, rank) {
      forall r, s | Load(r, rows, rank) && Load(s, rows, rank)
        ensures CanonicalText(r) == CanonicalText(s)
      {
        CommutingTiesFixText(rows, rank, r, s);
      }
    }
    if LoadOrderFree(rows, rank) {
      forall x, y | x in rows && y in rows && Tied(x, y, rank)
        ensures Commute(x, y)
      {
        FreeLoadsCommute(rows, rank, x, y);
      }
    }
  }

  lemma EqualHashedCommute(x: Transaction, y: Transaction)
    requires HashedOf()(x) == HashedOf()(y)
    ensures Commute(x, y)
  {
    hide Join, Calendar.IsoText, AmountText;
  }

  lemma CleanCommuteIsAgree(x: Transaction, y: Transaction)
    requires Clean(x) && Clean(y) && Commute(x, y)
    ensures HashedOf()(x) == HashedOf()(y)
  {
    hide LineOf, Clean;
    LineFree(x);
    LineFree(y);
    Regroup(LineOf()(x), LineOf()(y));
    Regroup(LineOf()(y), LineOf()(x));
    SplitAtFirst('\n', LineOf()(x), LineOf()(y), LineOf()(y), LineOf()(x));
    LineInjective(x, y);
  }

  /**
   Rows tied on id and rank that agree on the hashed fields make the text independent of load
   order; among clean rows nothing else does.
   */
  lemma AgreeingTiesSuffice(rows: seq<Transaction>, rank: Transaction -> int)
    ensures TiesAgree(rows, rank) ==> LoadOrderFree(rows, rank)
    ensures AllClean(rows) ==> (LoadOrderFree(rows, rank) <==> TiesAgree(rows, rank))
  {
    hide LoadOrderFree, Commute, HashedOf, Clean;
    LoadOrderFreeIff(rows, rank);
    if TiesAgree(rows, rank) {
      forall x, y | x in rows && y in rows && Tied(x, y, rank)
        ensures Commute(x, y)
      {
        EqualHashedCommute(x, y);
      }
    }
    if AllClean(rows) && TiesCommute(rows, rank) {
      forall x, y | x in rows && y in rows && Tied(x, y, rank)
        ensures HashedOf()(x) == HashedOf()(y)
      {
        CleanCommuteIsAgree(x, y);
      }
    }
  }

  ghost predicate AnyOrder(rows: seq<Transaction>) {
    forall r, s :: multiset(r) == multiset(rows) && multiset(s) == multiset(rows) ==> CanonicalText(r) == CanonicalText(s)
  }

  ghost predicate SameIdsCommute(rows: seq<Transaction>) {
    forall x, y :: x in rows && y in rows && x.externalId == y.externalId ==> Commute(x, y)
  }

  /** For lists in arbitrary order the same holds with the id alone, which is not unique. */
  lemma AnyOrderIff(rows: seq<Transaction>)
    ensures AnyOrder(rows) <==> SameIdsCommute(rows)
  {
    hide CanonicalText, Commute;
    LoadOrderFreeIff(rows, Unordered());
    assert forall r :: Load(r, rows, Unordered()) <==> multiset(r) == multiset(rows);
    assert forall x, y :: Tied(x, y, Unordered()) <==> x.externalId == y.externalId;
  }

  // ---- Witnesses ----

  const A_DAY := Calendar.Timestamp(Calendar.Date(2024, 1, 15), 0)

  function Payment(cents: int): Transaction {
    Transaction("x", A_DAY, cents, "USD", "c", None)
  }

  lemma PaymentIsClean(cents: int)
    requires 0 < cents < 1000
    ensures Clean(Payment(cents))
  {
  }

  /** Two storable rows with one id and timestamp, and two loads of them with different texts. */
  lemma LoadOrderCanShow()
    ensures var x, y := Payment(100), Payment(200);
            && Storable(x) && Storable(y)
            && Load([x, y], [x, y], ByTime()) && Load([y, x], [x, y], ByTime())
            && CanonicalText([x, y]) != CanonicalText([y, x])
  {
    hide CanonicalText, Clean, LineOf, StringLe;
    var x, y := Payment(100), Payment(200);
    PaymentIsClean(100);
    PaymentIsClean(200);
    StorableIfClean(x);
    StorableIfClean(y);
    StringLeTotal(x.externalId, y.externalId);
    PairText(x, y);
    PairText(y, x);
    if CanonicalText([x, y]) == CanonicalText([y, x]) {
      CleanCommuteIsAgree(x, y);
    }
  }

  lemma StorableIfClean(t: Transaction)
    requires Clean(t)
    ensures Storable(t)
  {
  }

  /**
   Tied rows need not agree for the text to be the same: a line break in a counterparty can hide
   their order.
   */
  lemma NewlinesCanHideOrder(x: Transaction)
    ensures var y := x.(counterparty := x.counterparty + ("\n" + LineOf()(x)));
            HashedOf()(x) != HashedOf()(y) && Commute(x, y)
  {
    hide LineOf;
    var l := LineOf()(x);
    var y := x.(counterparty := x.counterparty + ("\n" + l));
    LineAppends(x, "\n" + l);
    assert |y.counterparty| > |x.counterparty|;
    assert l + ("\n" + (l + ("\n" + l))) == (l + ("\n" + l)) + ("\n" + l);
  }
}
