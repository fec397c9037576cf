/**
 Exactly which inputs the hashed text of a fingerprint pins down: which other inputs can be read
 out of it when text fields hold bars or line breaks.
 */
module Readings {
  import opened Base
  import opened Fingerprint
  import opened Sorting
  import opened Strings
  import opened Transactions
  import Calendar
  import Decimals

  /** Every storable input with this text has these hashed fields, row by row in order of ids. */
  ghost predicate TextPins(xs: seq<Transaction>) {
    forall ys :: AllStorable(ys) && CanonicalText(ys) == CanonicalText(xs)
                 ==> Map(Ordered(ys), HashedOf()) == Map(Ordered(xs), HashedOf())
  }

  /** A text between bars, or before a final bar, that reads as timestamp and amount. */
  ghost predicate Stamp(id: string, before: string, ts: Calendar.Timestamp, cents: int, after: string) {
    && ts.Valid() && Decimals.InColumn(cents)
    && id + "|" == before + ("|" + (Calendar.IsoText(ts) + ("|" + (AmountText(cents) + ("|" + after)))))
  }

  /** Somewhere in the id a bar is followed by a timestamp, a bar, an amount, and a bar or the end. */
  ghost predicate Stamped(id: string) {
    exists before, ts, cents, after :: Stamp(id, before, ts, cents, after)
  }

  /** Its line can be read in one way only. */
  ghost predicate Plain(t: Transaction) {
    Free(t.currency, '|') && Free(t.counterparty, '|') && !Stamped(t.externalId)
  }

  // ---- The parts of a line ----

  function Tail(t: Transaction): string {
    t.currency + ("|" + t.counterparty)
  }

  function AfterId(t: Transaction): string {
    Calendar.IsoText(t.timestamp) + ("|" + (AmountText(t.cents) + ("|" + Tail(t))))
  }

  lemma LineParts(t: Transaction)
    ensures LineOf()(t) == t.externalId + ("|" + AfterId(t))
  {
    hide Calendar.IsoText, AmountText;
    var fs := Fields(t);
    JoinCons('|', fs);
    JoinCons('|', fs[1..]);
    JoinCons('|', fs[2..]);
    JoinCons('|', fs[3..]);
    assert fs[1..][1..] == fs[2..] && fs[2..][1..] == fs[3..] && fs[3..][1..] == [fs[4]];
  }

  lemma JoinCons(sep: char, parts: seq<string>)
    requires |parts| > 1
    ensures Join(sep, parts) == parts[0] + ([sep] + Join(sep, parts[1..]))
  {
    assert parts[0] + [sep] + Join(sep, parts[1..]) == parts[0] + ([sep] + Join(sep, parts[1..]));
  }

  lemma StampFree(ts: Calendar.Timestamp, cents: int)
    ensures Free(Calendar.IsoText(ts), '|') && Free(AmountText(cents), '|')
    ensures Calendar.IsoText(ts) != AmountText(cents)
  {
    hide Calendar.DateText, Calendar.TimeText, AmountText;
    Calendar.IsoTextFree(ts, '|');
    AmountTextFree(cents, '|');
    AmountTextFree(cents, 'T');
    assert Calendar.IsoText(ts)[10] == 'T';
  }

  /** The rows one after the other, each field written out, each line ended. */
  function Rows(ts: seq<Transaction>): string {
    if ts == [] then ""
    else
      var t := ts[0];
      t.externalId + ("|" + (Calendar.IsoText(t.timestamp) + ("|" + (AmountText(t.cents)
        + ("|" + (t.currency + ("|" + (t.counterparty + ("\n" + Rows(ts[1..]))))))))))
  }

  lemma {:induction false} RowsAreBlocks(ts: seq<Transaction>)
    ensures Rows(ts) == Blocks(ts)
  {
    hide LineOf, Calendar.IsoText, AmountText;
    if ts != [] {
      RowsAreBlocks(ts[1..]);
      LineParts(ts[0]);
      var t, rest := ts[0], Rows(ts[1..]);
      var iso, amount := Calendar.IsoText(t.timestamp), AmountText(t.cents);
      assert t.externalId + ("|" + (iso + ("|" + (amount + ("|" + (t.currency + ("|" + t.counterparty))))))) + "\n" + rest
          == t.externalId + ("|" + (iso + ("|" + (amount
               + ("|" + (t.currency + ("|" + (t.counterparty + ("\n" + rest)))))))));
    }
  }

  /**
   The hashed text: a marker for the empty input, and otherwise the rows in order of ids by code
   points, rows of one id as they came, without the last line break.
   */
  lemma TextLayout(ts: seq<Transaction>) returns (o: seq<Transaction>)
    ensures ts == [] ==> CanonicalText(ts) == "EMPTY_BATCH"
    ensures multiset(o) == multiset(ts)
    ensures forall i, j :: 0 <= i < j < |o| ==> CodePointLe(o[i].externalId, o[j].externalId)
    ensures forall id :: Filter(o, WithId(id)) == Filter(ts, WithId(id))
    ensures ts != [] ==> CanonicalText(ts) + "\n" == Rows(o)
  {
    hide LineOf, StableSort, StringLe, CodePointLe, Rows, Blocks;
    o := Ordered(ts);
    StableSortPermutes(ts, ById());
    PermutedLength(o, ts);
    ByIdIsPreorder();
    StableSortSorts(ts, ById());
    forall i, j | 0 <= i < j < |o|
      ensures CodePointLe(o[i].externalId, o[j].externalId)
    {
      assert ById()(o[i], o[j]);
      StringLeMeaning(o[i].externalId, o[j].externalId);
    }
    forall id
      ensures Filter(o, WithId(id)) == Filter(ts, WithId(id))
    {
      StringLeTotal(id, id);
      StableSortIsStable(ts, ById(), WithId(id));
    }
    if ts != [] {
      JoinIsBlocks(o);
      RowsAreBlocks(o);
    }
  }

  // ---- Other readings of one row ----

  function Retailed(t: Transaction, currency: string, counterparty: string): Transaction {
    t.(currency := currency, counterparty := counterparty)
  }

  lemma SameTailSameLine(t: Transaction, currency: string, counterparty: string)
    requires currency + ("|" + counterparty) == Tail(t)
    ensures LineOf()(Retailed(t, currency, counterparty)) == LineOf()(t)
  {
    hide LineOf, Calendar.IsoText, AmountText;
    LineParts(t);
    LineParts(Retailed(t, currency, counterparty));
  }

  /**
   A bar in the currency or the counterparty of any row can be read as the one between them: the
   row shares its text with a row in which a part of one field has moved to the other.
   */
  lemma DelimitersAreAmbiguous(t: Transaction) returns (u: Transaction)
    requires !Free(t.currency, '|') || !Free(t.counterparty, '|')
    ensures u == Retailed(t, u.currency, u.counterparty) && u.currency != t.currency
    ensures CanonicalText([u]) == CanonicalText([t])
  {
    hide CanonicalText, LineOf;
    if i :| 0 <= i < |t.currency| && t.currency[i] == '|' {
      var p, q := t.currency[..i], t.currency[i + 1..];
      u := Retailed(t, p, q + ("|" + t.counterparty));
      assert t.currency == p + "|" + q;
      assert p + ("|" + (q + ("|" + t.counterparty))) == Tail(t);
    } else {
      var i :| 0 <= i < |t.counterparty| && t.counterparty[i] == '|';
      var p, q := t.counterparty[..i], t.counterparty[i + 1..];
      u := Retailed(t, t.currency + ("|" + p), q);
      assert t.counterparty == p + "|" + q;
      assert (t.currency + ("|" + p)) + ("|" + q) == Tail(t);
    }
    SameTailSameLine(t, u.currency, u.counterparty);
    SingletonText(t);
    SingletonText(u);
  }

  /** A timestamp and an amount in the id can be read as those of the row. */
  lemma StampsAreAmbiguous(t: Transaction, before: string, ts: Calendar.Timestamp, cents: int, after: string)
    returns (u: Transaction)
    requires Stamp(t.externalId, before, ts, cents, after)
    ensures Storable(u) && u.externalId == before && |before| < |t.externalId|
    ensures CanonicalText([u]) == CanonicalText([t])
  {
    hide CanonicalText, LineOf, Calendar.IsoText, AmountText;
    var iso := Calendar.IsoText(t.timestamp);
    var rest := AmountText(t.cents) + ("|" + Tail(t));
    u := Transaction(before, ts, cents, after + iso, rest, t.hint);
    var s, a := Calendar.IsoText(ts), AmountText(cents);
    LineParts(t);
    LineParts(u);
    assert LineOf()(t) == (t.externalId + "|") + (iso + ("|" + rest));
    assert (before + ("|" + (s + ("|" + (a + ("|" + after)))))) + (iso + ("|" + rest))
        == before + ("|" + (s + ("|" + (a + ("|" + ((after + iso) + ("|" + rest)))))));
    SingletonText(t);
    SingletonText(u);
  }

  // ---- Plain rows have one reading ----

  lemma OneBar(a: string, b: string, c: string, d: string)
    requires Free(c, '|') && Free(d, '|')
    requires a + ("|" + b) == c + ("|" + d)
    ensures a == c && b == d
  {
    var l, r := a + ("|" + b), c + ("|" + d);
    assert l[|a|] == '|';
    assert forall i :: 0 <= i < |r| && r[i] == '|' ==> i == |c|;
    SplitAt(a, "|" + b, c, "|" + d);
    SplitAt("|", b, "|", d);
  }

  lemma FirstBar(p: string, u: string, q: string, v: string)
    requires Free(p, '|') && Free(q, '|') && p + ("|" + u) == q + ("|" + v)
    ensures p == q && u == v
  {
    assert p + ("|" + u) == p + ['|'] + u && q + ("|" + v) == q + ['|'] + v;
    SplitAtFirst('|', p, u, q, v);
  }

  /** Rows with the same id and line agree on everything up to the last two fields. */
  lemma SameIdReading(t: Transaction, u: Transaction)
    requires Storable(t) && Storable(u) && AfterId(t) == AfterId(u)
    ensures t.timestamp == u.timestamp && t.cents == u.cents && Tail(t) == Tail(u)
  {
    hide Calendar.IsoText, AmountText;
    StampFree(t.timestamp, t.cents);
    StampFree(u.timestamp, u.cents);
    FirstBar(Calendar.IsoText(t.timestamp), AmountText(t.cents) + ("|" + Tail(t)),
             Calendar.IsoText(u.timestamp), AmountText(u.cents) + ("|" + Tail(u)));
    FirstBar(AmountText(t.cents), Tail(t), AmountText(u.cents), Tail(u));
    Calendar.IsoTextInjective(t.timestamp, u.timestamp);
    AmountTextInjective(t.cents, u.cents);
  }

  function Bars(s: string): nat {
    multiset(s)['|']
  }

  lemma BarsAdd(a: string, b: string)
    ensures Bars(a + b) == Bars(a) + Bars(b)
  {
    assert multiset(a + b) == multiset(a) + multiset(b);
  }

  lemma BarsFree(s: string)
    ensures Bars(s) == 0 <==> Free(s, '|')
  {
    assert '|' in multiset(s) <==> '|' in s;
  }

  lemma BarsOne()
    ensures Bars("|") == 1
  {
    assert multiset("|") == multiset{'|'};
  }

  lemma BarsAfterId(t: Transaction)
    ensures Bars(AfterId(t)) == 3 + Bars(t.currency) + Bars(t.counterparty)
  {
    hide Calendar.IsoText, AmountText, Bars;
    var iso, amount := Calendar.IsoText(t.timestamp), AmountText(t.cents);
    StampFree(t.timestamp, t.cents);
    BarsFree(iso);
    BarsFree(amount);
    BarsOne();
    BarsAdd("|", t.counterparty);
    BarsAdd(t.currency, "|" + t.counterparty);
    BarsAdd("|", Tail(t));
    BarsAdd(amount, "|" + Tail(t));
    BarsAdd("|", amount + ("|" + Tail(t)));
    BarsAdd(iso, "|" + (amount + ("|" + Tail(t))));
  }

  /** A reading cannot end the id of a plain row later: too few bars would be left. */
  lemma IdEndsNoLater(t: Transaction, u: Transaction)
    requires Plain(t) && LineOf()(u) == LineOf()(t)
    ensures |u.externalId| <= |t.externalId|
  {
    hide LineOf, AfterId, Bars, Stamped;
    LineParts(t);
    LineParts(u);
    if |u.externalId| > |t.externalId| {
      var k := |u.externalId| - |t.externalId|;
      var x := AfterId(t)[..k];
      Cut(t.externalId, AfterId(t), u.externalId, AfterId(u));
      BarsAdd(x, AfterId(u));
      BarsAfterId(t);
      BarsAfterId(u);
      BarsFree(t.currency);
      BarsFree(t.counterparty);
      BarsFree(x);
    }
  }

  /** Two cuts of one text at a bar: what lies between them ends with a bar. */
  lemma Cut(a: string, b: string, c: string, d: string)
    requires a + ("|" + b) == c + ("|" + d) && |a| < |c|
    ensures var k := |c| - |a|;
            && |b| >= k && b == b[..k] + d && b[k - 1] == '|' && !Free(b[..k], '|')
            && c + "|" == a + ("|" + b[..k])
  {
    var k := |c| - |a|;
    var l, r := a + ("|" + b), c + ("|" + d);
    assert |l| == |r|;
    assert b == l[|a| + 1..] && d == r[|c| + 1..];
    assert b[k..] == d;
    assert b[k - 1] == l[|a| + k] == r[|c|] == '|';
    assert b == b[..k] + b[k..] && b[..k][k - 1] == '|';
    assert c + "|" == r[..|c| + 1] && a + ("|" + b[..k]) == l[..|c| + 1];
  }

  /** If it ends the id earlier, the rest of the id holds a timestamp and an amount. */
  lemma IdEndsEarlierAtStamp(t: Transaction, u: Transaction)
    requires Storable(u) && LineOf()(u) == LineOf()(t) && |u.externalId| < |t.externalId|
    ensures Stamped(t.externalId)
  {
    hide LineOf, Calendar.IsoText, AmountText, Tail;
    LineParts(t);
    LineParts(u);
    var k := |t.externalId| - |u.externalId|;
    var iso, amount := Calendar.IsoText(u.timestamp), AmountText(u.cents);
    Cut(u.externalId, AfterId(u), t.externalId, AfterId(t));
    StampFree(u.timestamp, u.cents);
    StampFree(t.timestamp, u.cents);
    StampFree(t.timestamp, t.cents);
    var after := PastStamp(iso, amount, Tail(u), k, Calendar.IsoText(t.timestamp), AmountText(t.cents) + ("|" + Tail(t)));
    assert Stamp(t.externalId, u.externalId, u.timestamp, u.cents, after);
  }

  /** A bar of a text lies at or behind the one that ends its first part. */
  lemma BarBehind(p: string, rest: string, k: nat)
    requires Free(p, '|')
    requires var s := p + ("|" + rest); 0 < k <= |s| && s[k - 1] == '|'
    ensures k > |p|
    ensures var s, n := p + ("|" + rest), k - |p| - 1;
            && s[..k] == p + ("|" + rest[..n]) && s[k..] == rest[n..]
            && (n > 0 ==> rest[n - 1] == '|')
  {
    var s := p + ("|" + rest);
    assert forall i :: 0 <= i < |p| ==> s[i] == p[i];
    assert s == p + "|" + rest;
  }

  /** A bar that is not followed by the amount lies behind timestamp, amount and their bars. */
  lemma PastStamp(iso: string, amount: string, tail: string, k: nat, next: string, more: string)
    returns (after: string)
    requires Free(iso, '|') && Free(amount, '|') && Free(next, '|') && next != amount
    requires var s := iso + ("|" + (amount + ("|" + tail)));
             0 < k <= |s| && s[k - 1] == '|' && s == s[..k] + (next + ("|" + more))
    ensures (iso + ("|" + (amount + ("|" + tail))))[..k] == iso + ("|" + (amount + ("|" + after)))
  {
    var rest := amount + ("|" + tail);
    BarBehind(iso, rest, k);
    var n := k - |iso| - 1;
    if n == 0 {
      assert rest[0..] == rest;
      FirstBar(amount, tail, next, more);
    }
    BarBehind(amount, tail, n);
    after := tail[..n - |amount| - 1];
  }

  lemma PlainHasOneReading(t: Transaction, u: Transaction)
    requires Storable(t) && Storable(u) && Plain(t) && LineOf()(u) == LineOf()(t)
    ensures HashedOf()(u) == HashedOf()(t)
  {
    hide LineOf, AfterId, Stamped;
    IdEndsNoLater(t, u);
    if |u.externalId| < |t.externalId| {
      IdEndsEarlierAtStamp(t, u);
    } else {
      LineParts(t);
      LineParts(u);
      SplitAt(t.externalId, "|" + AfterId(t), u.externalId, "|" + AfterId(u));
      SplitAt("|", AfterId(t), "|", AfterId(u));
      SameIdReading(t, u);
      OneBar(u.currency, u.counterparty, t.currency, t.counterparty);
    }
  }

  // ---- Several rows ----

  lemma OrderedKeeps(xs: seq<Transaction>)
    ensures |Ordered(xs)| == |xs|
    ensures forall x :: x in Ordered(xs) <==> x in xs
  {
    StableSortPermutes(xs, ById());
    PermutedLength(Ordered(xs), xs);
  }

  /**
   Any input of two or more rows shares its text with a single row: its first one with all the
   further lines in the counterparty.
   */
  lemma NewlinesForgeRows(xs: seq<Transaction>) returns (z: Transaction)
    requires |xs| >= 2
    ensures exists x :: x in xs && z == x.(counterparty := z.counterparty)
    ensures !Free(z.counterparty, '|')
    ensures CanonicalText([z]) == CanonicalText(xs)
  {
    hide LineOf, StableSort;
    OrderedKeeps(xs);
    var o := Ordered(xs);
    var ls := Lines(xs);
    var rest := Join('\n', ls[1..]);
    z := o[0].(counterparty := o[0].counterparty + ("\n" + rest));
    assert o[0] in xs && z == o[0].(counterparty := z.counterparty);
    LineAppends(o[0], "\n" + rest);
    JoinCons('\n', ls);
    SingletonText(z);
    LineHasBar(o[1]);
    PrefixHas(ls[1], rest, '|');
    var i :| 0 <= i < |rest| && rest[i] == '|';
    assert z.counterparty[|o[0].counterparty| + 1 + i] == '|';
  }

  lemma HashedSingleton(t: Transaction)
    ensures Map(Ordered([t]), HashedOf()) == [HashedOf()(t)]
  {
    assert StableSort([t][1..], ById()) == [];
    assert Ordered([t]) == [t];
  }

  lemma PinnedRowIsPlain(t: Transaction)
    requires Storable(t) && TextPins([t])
    ensures Plain(t)
  {
    hide CanonicalText, Ordered, Stamp;
    HashedSingleton(t);
    if !Free(t.currency, '|') || !Free(t.counterparty, '|') {
      var u := DelimitersAreAmbiguous(t);
      assert AllStorable([u]);
      HashedSingleton(u);
    } else if before, ts, cents, after :| Stamp(t.externalId, before, ts, cents, after) {
      var u := StampsAreAmbiguous(t, before, ts, cents, after);
      assert AllStorable([u]);
      HashedSingleton(u);
    }
  }

  lemma PlainRowIsPinned(t: Transaction)
    requires Storable(t) && Plain(t)
    ensures TextPins([t])
  {
    hide CanonicalText, Ordered, Plain, LineOf;
    HashedSingleton(t);
    SingletonText(t);
    forall ys | AllStorable(ys) && CanonicalText(ys) == CanonicalText([t])
      ensures Map(Ordered(ys), HashedOf()) == Map(Ordered([t]), HashedOf())
    {
      TextHasBar([t]);
      if |ys| == 1 {
        assert ys == [ys[0]];
        SingletonText(ys[0]);
        PlainHasOneReading(t, ys[0]);
        HashedSingleton(ys[0]);
      } else {
        OnlyOneRow(t, ys);
      }
    }
  }

  lemma OnlyOneRow(t: Transaction, ys: seq<Transaction>)
    requires Storable(t) && Plain(t) && AllStorable(ys) && |ys| >= 2
    ensures CanonicalText(ys) != CanonicalText([t])
  {
    hide CanonicalText, LineOf, Stamped;
    if CanonicalText(ys) == CanonicalText([t]) {
      var z := NewlinesForgeRows(ys);
      var x :| x in ys && z == x.(counterparty := z.counterparty);
      assert Storable(x);
      SingletonText(z);
      SingletonText(t);
      PlainHasOneReading(t, z);
    }
  }

  /**
   The text pins down its input exactly if that is empty or a single row with no bar in currency
   or counterparty and no timestamp and amount between bars in the id.
   */
  lemma TextPinsIff(xs: seq<Transaction>)
    requires AllStorable(xs)
    ensures TextPins(xs) <==> xs == [] || (|xs| == 1 && Plain(xs[0]))
  {
    hide CanonicalText, Plain, Ordered;
    if xs == [] {
      EmptyIsPinned();
    } else if |xs| == 1 {
      assert xs == [xs[0]];
      if Plain(xs[0]) { PlainRowIsPinned(xs[0]); }
      if TextPins(xs) { PinnedRowIsPlain(xs[0]); }
    } else {
      var z := NewlinesForgeRows(xs);
      var x :| x in xs && z == x.(counterparty := z.counterparty);
      assert Storable(x) && AllStorable([z]);
      OrderedKeeps(xs);
      HashedSingleton(z);
      assert |Map(Ordered(xs), HashedOf())| != |Map(Ordered([z]), HashedOf())|;
    }
  }

  lemma EmptyIsPinned()
    ensures TextPins([])
  {
    hide CanonicalText, Ordered;
    forall ys | AllStorable(ys) && CanonicalText(ys) == CanonicalText([])
      ensures Map(Ordered(ys), HashedOf()) == Map(Ordered([]), HashedOf())
    {
      if ys != [] { TextHasBar(ys); }
    }
  }
}
