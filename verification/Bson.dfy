/**
 Parsed upload values, and the recursive sanitizer that makes them safe to store as BSON.
 */
module Bson {
  import opened Base
  import opened Strings

  /** A dictionary key: text, the `None` a CSV reader uses for surplus cells, or anything else. */
  datatype Key = TextKey(s: string) | NoneKey | OtherKey(text: string)

  datatype Entry = Entry(key: Key, value: Value)

  /** Which Python container a run of items came in. */
  datatype Container = ListOf | TupleOf | SetOf | FrozenSetOf

  /**
   A Python value as the CSV and JSON parsers, or a caller, can produce it. `Bytes` carries its
   decoding with replacement characters, `Dec` and `Other` what `str` makes of them.
   */
  datatype Value =
    | Null | Bool(b: bool) | Text(s: string) | Float(repr: string) | Int(n: int)
    | Dec(text: string) | Moment(micros: int)
    | Dict(entries: seq<Entry>) | Items(container: Container, items: seq<Value>)
    | Bytes(decoded: string) | Other(text: string)

  const INT64_MAX: int := 9223372036854775807
  const INT64_MIN: int := -9223372036854775808

  const NUL: char := '\0'

  function IntText(n: int): string {
    if n < 0 then "-" + NatText(-n) else NatText(n)
  }

  /** `replace("\x00", "\\0")`. */
  function EscapeNul(s: string): string {
    if s == "" then "" else (if s[0] == NUL then ['\\', '0'] else [s[0]]) + EscapeNul(s[1..])
  }

  function KeyText(k: Key): string {
    match k
    case TextKey(s) => EscapeNul(s)
    case NoneKey => "None"
    case OtherKey(text) => EscapeNul(text)
  }

  predicate HasKey(es: seq<Entry>, key: Key) {
    exists i :: 0 <= i < |es| && es[i].key == key
  }

  /** Assigning to a dictionary: an old key keeps its place, a new one goes last. */
  function Put(es: seq<Entry>, key: Key, v: Value): seq<Entry> {
    if es == [] then [Entry(key, v)]
    else if es[0].key == key then [Entry(key, v)] + es[1..]
    else [es[0]] + Put(es[1..], key, v)
  }

  /** `sanitize_for_bson`. */
  function Sanitize(v: Value): Value {
    match v
    case Int(n) => if INT64_MIN <= n <= INT64_MAX then v else Text(IntText(n))
    case Dec(text) => Text(text)
    case Dict(es) => Dict(SanitizeEntries(es))
    case Items(_, xs) => Items(ListOf, SanitizeItems(xs))
    case Bytes(decoded) => Text(decoded)
    case Other(text) => Text(text)
    case _ => v
  }

  /** The dictionary comprehension. */
  function SanitizeEntries(es: seq<Entry>): seq<Entry> {
    if es == [] then []
    else
      var last := SanitizeEntry(es[|es| - 1]);
      Put(SanitizeEntries(es[..|es| - 1]), last.key, last.value)
  }

  function SanitizeEntry(e: Entry): Entry {
    Entry(TextKey(KeyText(e.key)), Sanitize(e.value))
  }

  function SanitizeItems(xs: seq<Value>): (r: seq<Value>)
    ensures |r| == |xs|
    ensures forall i :: 0 <= i < |xs| ==> r[i] == Sanitize(xs[i])
  {
    if xs == [] then [] else [Sanitize(xs[0])] + SanitizeItems(xs[1..])
  }

  // ---- What BSON can hold ----

  predicate SafeKey(k: Key) {
    k.TextKey? && Free(k.s, NUL)
  }

  predicate DistinctKeys(es: seq<Entry>) {
    forall i, j :: 0 <= i < j < |es| ==> es[i].key != es[j].key
  }

  /** 64-bit integers, lists, string keys without NUL, and no decimals, bytes or foreign objects. */
  predicate Safe(v: Value) {
    match v
    case Int(n) => INT64_MIN <= n <= INT64_MAX
    case Dict(es) => DistinctKeys(es) && forall e :: e in es ==> SafeKey(e.key) && Safe(e.value)
    case Items(c, xs) => c == ListOf && forall x :: x in xs ==> Safe(x)
    case Dec(_) => false
    case Bytes(_) => false
    case Other(_) => false
    case _ => true
  }

  predicate SafeEntries(es: seq<Entry>) {
    DistinctKeys(es) && forall e :: e in es ==> SafeKey(e.key) && Safe(e.value)
  }

  lemma {:induction false} EscapeFrees(s: string)
    ensures Free(EscapeNul(s), NUL)
  {
    if s != "" {
      EscapeFrees(s[1..]);
    }
  }

  lemma {:induction false} EscapeFixed(s: string)
    ensures EscapeNul(s) == s <==> Free(s, NUL)
  {
    EscapeFrees(s);
    if Free(s, NUL) && s != "" {
      assert Free(s[1..], NUL);
      EscapeFixed(s[1..]);
    }
  }

  lemma KeyTextSafe(k: Key)
    ensures SafeKey(TextKey(KeyText(k)))
  {
    if k.TextKey? { EscapeFrees(k.s); }
    if k.OtherKey? { EscapeFrees(k.text); }
  }

  lemma DistinctTail(es: seq<Entry>)
    requires es != [] && DistinctKeys(es)
    ensures DistinctKeys(es[1..]) && !HasKey(es[1..], es[0].key)
  {
  }

  lemma DistinctCons(e: Entry, es: seq<Entry>)
    requires DistinctKeys(es) && !HasKey(es, e.key)
    ensures DistinctKeys([e] + es)
  {
    forall j | 0 <= j < |es|
      ensures es[j].key != e.key
    {
    }
  }

  lemma HasKeyTail(es: seq<Entry>, key: Key)
    requires es != []
    ensures HasKey(es, key) <==> es[0].key == key || HasKey(es[1..], key)
  {
    if HasKey(es[1..], key) {
      var i :| 0 <= i < |es| - 1 && es[1..][i].key == key;
      assert es[i + 1].key == key;
    }
    if HasKey(es, key) && es[0].key != key {
      var i :| 0 <= i < |es| && es[i].key == key;
      assert es[1..][i - 1].key == key;
    }
  }

  /** Assignment adds one key, or none if it was there, and keeps keys distinct. */
  lemma {:induction false} PutKeys(es: seq<Entry>, key: Key, v: Value, other: Key)
    requires DistinctKeys(es)
    ensures DistinctKeys(Put(es, key, v)) && |Put(es, key, v)| == |es| + (if HasKey(es, key) then 0 else 1)
    ensures HasKey(Put(es, key, v), other) <==> HasKey(es, other) || other == key
  {
    var r := Put(es, key, v);
    if es != [] {
      DistinctTail(es);
      HasKeyTail(es, key);
      HasKeyTail(es, other);
      HasKeyTail(r, other);
      if es[0].key == key {
        assert r[1..] == es[1..];
        DistinctCons(r[0], es[1..]);
      } else {
        PutKeys(es[1..], key, v, other);
        PutKeys(es[1..], key, v, es[0].key);
        assert r[1..] == Put(es[1..], key, v);
        DistinctCons(es[0], Put(es[1..], key, v));
      }
    } else {
      assert r[0].key == key;
    }
  }

  lemma {:induction false} PutMembers(es: seq<Entry>, key: Key, v: Value, e: Entry)
    requires e in Put(es, key, v)
    ensures e == Entry(key, v) || e in es
  {
    if es != [] && es[0].key != key && e != es[0] {
      PutMembers(es[1..], key, v, e);
    }
  }

  /** Whatever the parsers produced, the result can be stored. */
  lemma {:induction false} SanitizeIsSafe(v: Value)
    ensures Safe(Sanitize(v))
    decreases v
  {
    match v
    case Dict(es) => SanitizeEntriesSafe(es);
    case Items(_, xs) =>
      forall x | x in SanitizeItems(xs)
        ensures Safe(x)
      {
        var i :| 0 <= i < |xs| && SanitizeItems(xs)[i] == x;
        SanitizeIsSafe(xs[i]);
      }
    case _ =>
  }

  lemma {:induction false} SanitizeEntriesSafe(es: seq<Entry>)
    ensures SafeEntries(SanitizeEntries(es))
    decreases es
  {
    if es != [] {
      var last := es[|es| - 1];
      SanitizeEntriesSafe(es[..|es| - 1]);
      SanitizeEntrySafe(last);
      KeyTextSafe(last.key);
      var before, key, v := SanitizeEntries(es[..|es| - 1]), TextKey(KeyText(last.key)), Sanitize(last.value);
      PutKeys(before, key, v, key);
      forall e | e in Put(before, key, v)
        ensures SafeKey(e.key) && Safe(e.value)
      {
        PutMembers(before, key, v, e);
      }
    }
  }

  lemma {:induction false} SanitizeEntrySafe(e: Entry)
    ensures Safe(Sanitize(e.value))
    decreases e
  {
    SanitizeIsSafe(e.value);
  }

  /** A safe value is left alone, and only a safe value is. */
  lemma SanitizeFixesExactlySafe(v: Value)
    ensures Sanitize(v) == v <==> Safe(v)
  {
    SanitizeIsSafe(v);
    if Safe(v) {
      SafeIsFixed(v);
    }
  }

  lemma {:induction false} SafeIsFixed(v: Value)
    requires Safe(v)
    ensures Sanitize(v) == v
    decreases v
  {
    match v
    case Dict(es) => SafeEntriesFixed(es);
    case Items(_, xs) =>
      forall i | 0 <= i < |xs|
        ensures Sanitize(xs[i]) == xs[i]
      {
        assert xs[i] in xs;
        SafeIsFixed(xs[i]);
      }
      assert SanitizeItems(xs) == xs;
    case _ =>
  }

  lemma {:induction false} SafeEntriesFixed(es: seq<Entry>)
    requires SafeEntries(es)
    ensures SanitizeEntries(es) == es
    decreases es
  {
    if es != [] {
      hide SafeEntries, Sanitize, SanitizeEntry, Put;
      var n := |es| - 1;
      SafePrefix(es);
      SafeEntriesFixed(es[..n]);
      SafeEntryFixed(es[n]);
      SanitizedEntryFixed(es[n]);
      PutNew(es[..n], es[n].key, es[n].value);
      assert es == es[..n] + [es[n]];
    }
  }

  lemma SafePrefix(es: seq<Entry>)
    requires es != [] && SafeEntries(es)
    ensures var n := |es| - 1;
            && SafeEntries(es[..n]) && SafeKey(es[n].key) && Safe(es[n].value)
            && forall i :: 0 <= i < n ==> es[..n][i].key != es[n].key
  {
    hide Safe;
    assert es[|es| - 1] in es;
    assert forall e :: e in es[..|es| - 1] ==> e in es;
  }

  lemma SanitizedEntryFixed(e: Entry)
    requires SafeKey(e.key) && Sanitize(e.value) == e.value
    ensures SanitizeEntry(e) == e
  {
    hide Sanitize;
    EscapeFixed(e.key.s);
  }

  lemma {:induction false} SafeEntryFixed(e: Entry)
    requires Safe(e.value)
    ensures Sanitize(e.value) == e.value
    decreases e
  {
    SafeIsFixed(e.value);
  }

  lemma {:induction false} PutNew(es: seq<Entry>, key: Key, v: Value)
    requires forall i :: 0 <= i < |es| ==> es[i].key != key
    ensures Put(es, key, v) == es + [Entry(key, v)]
  {
    if es != [] {
      PutNew(es[1..], key, v);
      assert es == [es[0]] + es[1..];
    }
  }

  /** Sanitizing twice changes nothing more. */
  lemma SanitizeIdempotent(v: Value)
    ensures Sanitize(Sanitize(v)) == Sanitize(v)
  {
    SanitizeIsSafe(v);
    SanitizeFixesExactlySafe(Sanitize(v));
  }

  /** Integers too wide for BSON keep their value as text. */
  lemma WideIntegersStayDistinct(m: int, n: int)
    requires !(INT64_MIN <= m <= INT64_MAX) && !(INT64_MIN <= n <= INT64_MAX)
    ensures Sanitize(Int(m)).Text? && (Sanitize(Int(m)) == Sanitize(Int(n)) <==> m == n)
  {
    if IntText(m) == IntText(n) {
      IntTextInjective(m, n);
    }
  }

  lemma IntTextInjective(m: int, n: int)
    requires IntText(m) == IntText(n)
    ensures m == n
  {
    assert IntText(m)[0] == '-' <==> m < 0;
    assert IntText(n)[0] == '-' <==> n < 0;
    if m < 0 {
      SplitAt("-", NatText(-m), "-", NatText(-n));
      NatTextInjective(-m, -n);
    } else {
      NatTextInjective(m, n);
    }
  }

  // ---- What a mapping keeps ----

  /** No two keys become the same text. */
  predicate TextsDistinct(es: seq<Entry>) {
    forall i, j :: 0 <= i < j < |es| ==> KeyText(es[i].key) != KeyText(es[j].key)
  }

  /** The last entry whose key becomes this text decides. */
  function LastWith(es: seq<Entry>, text: string): Option<Value> {
    if es == [] then None
    else if KeyText(es[|es| - 1].key) == text then Some(es[|es| - 1].value)
    else LastWith(es[..|es| - 1], text)
  }

  function Lookup(es: seq<Entry>, key: Key): Option<Value> {
    if es == [] then None else if es[0].key == key then Some(es[0].value) else Lookup(es[1..], key)
  }

  lemma {:induction false} LookupPut(es: seq<Entry>, key: Key, v: Value, other: Key)
    ensures Lookup(Put(es, key, v), other) == if other == key then Some(v) else Lookup(es, other)
  {
    if es != [] && es[0].key != key {
      LookupPut(es[1..], key, v, other);
    }
  }

  /** The result maps exactly the texts of the keys, each to the sanitized last value under it. */
  lemma {:induction false} MappingKeepsLast(es: seq<Entry>, text: string)
    ensures Lookup(SanitizeEntries(es), TextKey(text)) ==
            match LastWith(es, text) case Some(v) => Some(Sanitize(v)) case None => None
  {
    if es != [] {
      var n := |es| - 1;
      MappingKeepsLast(es[..n], text);
      LookupPut(SanitizeEntries(es[..n]), TextKey(KeyText(es[n].key)), Sanitize(es[n].value), TextKey(text));
    }
  }

  lemma {:induction false} LookupHas(es: seq<Entry>, key: Key)
    ensures HasKey(es, key) <==> Lookup(es, key).Some?
  {
    if es != [] {
      HasKeyTail(es, key);
      LookupHas(es[1..], key);
    }
  }

  lemma {:induction false} LastWithIff(es: seq<Entry>, text: string)
    ensures LastWith(es, text).Some? <==> exists i :: 0 <= i < |es| && KeyText(es[i].key) == text
  {
    if es != [] {
      LastWithIff(es[..|es| - 1], text);
      if i :| 0 <= i < |es| && KeyText(es[i].key) == text {
        if i < |es| - 1 {
          assert es[..|es| - 1][i] == es[i];
        }
      }
    }
  }

  /** A mapping never grows, and shrinks exactly when two keys become the same text. */
  lemma {:induction false} MappingSize(es: seq<Entry>)
    ensures |SanitizeEntries(es)| <= |es|
    ensures |SanitizeEntries(es)| == |es| <==> TextsDistinct(es)
  {
    if es != [] {
      var n := |es| - 1;
      var text := KeyText(es[n].key);
      MappingSize(es[..n]);
      SanitizeEntriesSafe(es[..n]);
      PutKeys(SanitizeEntries(es[..n]), TextKey(text), Sanitize(es[n].value), TextKey(text));
      LookupHas(SanitizeEntries(es[..n]), TextKey(text));
      MappingKeepsLast(es[..n], text);
      DistinctTextsGrow(es);
    }
  }

  lemma DistinctTextsGrow(es: seq<Entry>)
    requires es != []
    ensures var n := |es| - 1;
            TextsDistinct(es) <==> TextsDistinct(es[..n]) && LastWith(es[..n], KeyText(es[n].key)).None?
  {
    hide KeyText;
    var n := |es| - 1;
    LastWithIff(es[..n], KeyText(es[n].key));
    assert forall i :: 0 <= i < n ==> es[..n][i] == es[i];
  }

  /** `None` and the text "None" collide: two cells become one. */
  lemma NoneCollides(a: Value, b: Value)
    ensures SanitizeEntries([Entry(TextKey("None"), a), Entry(NoneKey, b)]) == [Entry(TextKey("None"), Sanitize(b))]
  {
    var es := [Entry(TextKey("None"), a), Entry(NoneKey, b)];
    assert es[..1] == [es[0]] && es[..1][..0] == [];
    EscapeFixed("None");
    assert SanitizeEntries(es[..1]) == [Entry(TextKey("None"), Sanitize(a))];
  }
}
