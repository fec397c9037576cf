/**
 What sanitizing keeps: a reading of parsed values that does not depend on how they are
 represented, and the theorem that sanitizing preserves it.
 */
module BsonContent {
  import opened Base
  import opened Bson
  import opened Strings

  /** A value as a reader of the stored document understands it. */
  datatype Content =
    | Plain(v: Value) | Writing(text: string) | Listing(items: seq<Content>) | Mapping(entries: map<string, Content>)

  /**
   Texts, decimals, bytes, foreign objects and integers beyond 64 bits are read as their text, any
   container as the list of its items, a mapping by the texts of its keys, the last one deciding.
   */
  function ContentOf(v: Value): Content {
    match v
    case Text(s) => Writing(s)
    case Dec(text) => Writing(text)
    case Bytes(decoded) => Writing(decoded)
    case Other(text) => Writing(text)
    case Int(n) => if -0x8000_0000_0000_0000 <= n <= 0x7FFF_FFFF_FFFF_FFFF then Plain(v) else Writing(IntText(n))
    case Items(_, xs) => Listing(ContentsOf(xs))
    case Dict(es) => Mapping(EntriesOf(es))
    case _ => Plain(v)
  }

  function ContentsOf(xs: seq<Value>): (r: seq<Content>)
    ensures |r| == |xs|
    ensures forall i :: 0 <= i < |xs| ==> r[i] == ContentOf(xs[i])
  {
    if xs == [] then [] else [ContentOf(xs[0])] + ContentsOf(xs[1..])
  }

  function EntriesOf(es: seq<Entry>): map<string, Content> {
    if es == [] then map[]
    else EntriesOf(es[..|es| - 1])[KeyText(es[|es| - 1].key) := EntryContent(es[|es| - 1])]
  }

  function EntryContent(e: Entry): Content {
    ContentOf(e.value)
  }

  // ---- Mappings by lookup ----

  lemma {:induction false} EntriesLookup(es: seq<Entry>, text: string)
    ensures text in EntriesOf(es) <==> LastWith(es, text).Some?
    ensures text in EntriesOf(es) ==> EntriesOf(es)[text] == ContentOf(LastWith(es, text).value)
  {
    hide KeyText, ContentOf;
    if es != [] {
      EntriesLookup(es[..|es| - 1], text);
    }
  }

  lemma {:induction false} LookupAt(es: seq<Entry>, i: nat)
    requires DistinctKeys(es) && i < |es|
    ensures Lookup(es, es[i].key) == Some(es[i].value)
  {
    if i > 0 {
      LookupAt(es[1..], i - 1);
    }
  }

  lemma {:induction false} LastWithAt(es: seq<Entry>, i: nat)
    requires TextsDistinct(es) && i < |es|
    ensures LastWith(es, KeyText(es[i].key)) == Some(es[i].value)
  {
    hide KeyText;
    if i < |es| - 1 {
      LastWithAt(es[..|es| - 1], i);
    }
  }

  lemma SafeKeyText(k: Key)
    requires SafeKey(k)
    ensures k == TextKey(KeyText(k))
  {
    EscapeFixed(k.s);
  }

  lemma SafeTextsDistinct(es: seq<Entry>)
    requires SafeEntries(es)
    ensures TextsDistinct(es)
  {
    hide KeyText, SafeKey, Safe;
    forall i, j | 0 <= i < j < |es|
      ensures KeyText(es[i].key) != KeyText(es[j].key)
    {
      assert es[i] in es && es[j] in es;
      SafeKeyText(es[i].key);
      SafeKeyText(es[j].key);
    }
  }

  /** In a mapping BSON can hold, one entry answers for each text. */
  lemma SafeLookup(es: seq<Entry>, text: string)
    requires SafeEntries(es)
    ensures Lookup(es, TextKey(text)) == LastWith(es, text)
  {
    hide KeyText, SafeKey, Safe;
    SafeTextsDistinct(es);
    LookupHas(es, TextKey(text));
    LastWithIff(es, text);
    if i :| 0 <= i < |es| && KeyText(es[i].key) == text {
      assert es[i] in es;
      SafeKeyText(es[i].key);
      LookupAt(es, i);
      LastWithAt(es, i);
    } else if HasKey(es, TextKey(text)) {
      var i :| 0 <= i < |es| && es[i].key == TextKey(text);
      assert es[i] in es;
      SafeKeyText(es[i].key);
    }
  }

  lemma {:induction false} LastWithMember(es: seq<Entry>, text: string) returns (i: nat)
    requires LastWith(es, text).Some?
    ensures i < |es| && LastWith(es, text) == Some(es[i].value)
  {
    hide KeyText;
    if KeyText(es[|es| - 1].key) == text {
      i := |es| - 1;
    } else {
      i := LastWithMember(es[..|es| - 1], text);
    }
  }

  // ---- Sanitizing keeps the content ----

  lemma MappingContent(es: seq<Entry>, text: string)
    requires forall i :: 0 <= i < |es| ==> ContentOf(Sanitize(es[i].value)) == ContentOf(es[i].value)
    ensures text in EntriesOf(SanitizeEntries(es)) <==> text in EntriesOf(es)
    ensures text in EntriesOf(es) ==> EntriesOf(SanitizeEntries(es))[text] == EntriesOf(es)[text]
  {
    hide ContentOf, Sanitize, SanitizeEntries, LastWith, EntriesOf, Lookup;
    EntriesLookup(es, text);
    EntriesLookup(SanitizeEntries(es), text);
    SanitizeEntriesSafe(es);
    SafeLookup(SanitizeEntries(es), text);
    MappingKeepsLast(es, text);
    if LastWith(es, text).Some? {
      var i := LastWithMember(es, text);
    }
  }

  /** Whatever a row holds, its sanitized form reads the same. */
  lemma {:induction false} SanitizeKeepsContent(v: Value)
    ensures ContentOf(Sanitize(v)) == ContentOf(v)
    decreases v
  {
    match v
    case Dict(es) => EntriesKeepContent(es);
    case Items(_, xs) =>
      forall i | 0 <= i < |xs|
        ensures ContentOf(SanitizeItems(xs)[i]) == ContentOf(xs[i])
      {
        SanitizeKeepsContent(xs[i]);
      }
      assert ContentsOf(SanitizeItems(xs)) == ContentsOf(xs);
    case _ =>
  }

  lemma {:induction false} EntriesKeepContent(es: seq<Entry>)
    ensures EntriesOf(SanitizeEntries(es)) == EntriesOf(es)
    decreases es
  {
    hide ContentOf, Sanitize, SanitizeEntries, EntriesOf;
    forall i | 0 <= i < |es|
      ensures ContentOf(Sanitize(es[i].value)) == ContentOf(es[i].value)
    {
      EntryKeepsContent(es[i]);
    }
    forall text
      ensures text in EntriesOf(SanitizeEntries(es)) <==> text in EntriesOf(es)
      ensures text in EntriesOf(es) ==> EntriesOf(SanitizeEntries(es))[text] == EntriesOf(es)[text]
    {
      MappingContent(es, text);
    }
    assert EntriesOf(SanitizeEntries(es)) == EntriesOf(es);
  }

  lemma {:induction false} EntryKeepsContent(e: Entry)
    ensures ContentOf(Sanitize(e.value)) == ContentOf(e.value)
    decreases e
  {
    SanitizeKeepsContent(e.value);
  }

  // ---- The texts involved ----

  /** An integer's text: a minus sign if negative, then its digits without leading zeros. */
  lemma IntTextReads(n: int) returns (sign: string, digits: string)
    ensures IntText(n) == sign + digits && sign == if n < 0 then "-" else ""
    ensures AllDigits(digits) && DigitsValue(digits) == if n < 0 then -n else n
    ensures |digits| > 0 && (|digits| > 1 ==> digits[0] != '0')
  {
    var m := if n < 0 then -n else n;
    sign, digits := if n < 0 then "-" else "", NatText(m);
    NatTextValue(m);
    assert "" + digits == digits;
  }

  lemma {:induction false} EscapeConcat(a: string, b: string)
    ensures EscapeNul(a + b) == EscapeNul(a) + EscapeNul(b)
  {
    if a == "" {
      assert a + b == b;
    } else {
      assert (a + b)[1..] == a[1..] + b;
      EscapeConcat(a[1..], b);
    }
  }

  /** Each NUL of a key becomes a backslash and a zero, and nothing else changes. */
  lemma EscapeNulReads(a: string, b: string)
    ensures EscapeNul(a + ("\0" + b)) == EscapeNul(a) + ("\\0" + EscapeNul(b))
    ensures '\0' !in a ==> EscapeNul(a) == a
  {
    EscapeConcat(a, "\0" + b);
    EscapeConcat("\0", b);
    assert "\0"[1..] == "";
    assert EscapeNul("\0") == ['\\', '0'] + EscapeNul("") == "\\0";
    if '\0' !in a { EscapeFixed(a); }
  }
}
