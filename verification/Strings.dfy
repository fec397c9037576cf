/**
 The string operations the reporting engine relies on: Python's code-point order, `sep.join`,
 `strip().lower()` as far as hint matching needs it, and decimal digit texts.
 */
module Strings {
  import opened Base
  import opened Sorting

  // ---- Code-point order ----

  predicate StringLe(a: string, b: string) {
    a == [] || (b != [] && (a[0] < b[0] || (a[0] == b[0] && StringLe(a[1..], b[1..]))))
  }

  lemma {:induction false} StringLeTotal(a: string, b: string)
    ensures StringLe(a, b) || StringLe(b, a)
  {
    if a != [] && b != [] && a[0] == b[0] {
      StringLeTotal(a[1..], b[1..]);
    }
  }

  lemma {:induction false} StringLeAntisymmetric(a: string, b: string)
    requires StringLe(a, b) && StringLe(b, a)
    ensures a == b
  {
    if a != [] {
      StringLeAntisymmetric(a[1..], b[1..]);
      assert a == [a[0]] + a[1..] && b == [b[0]] + b[1..];
    }
  }

  lemma {:induction false} StringLeTransitive(a: string, b: string, c: string)
    requires StringLe(a, b) && StringLe(b, c)
    ensures StringLe(a, c)
  {
    if a != [] && a[0] == b[0] == c[0] {
      StringLeTransitive(a[1..], b[1..], c[1..]);
    }
  }

  /** Python's `<=` on texts: a prefix, or smaller at the first difference. */
  ghost predicate CodePointLe(a: string, b: string) {
    a <= b || exists k :: 0 <= k < |a| && k < |b| && a[..k] == b[..k] && a[k] < b[k]
  }

  ghost predicate CodePointLess(a: string, b: string) {
    a != b && CodePointLe(a, b)
  }

  lemma SamePrefixHead(a: string, b: string, k: nat)
    requires 0 < k <= |a| && k <= |b| && a[..k] == b[..k]
    ensures a[0] == b[0]
  {
    assert a[..k][0] == a[0] && b[..k][0] == b[0];
  }

  lemma CodePointLeHeads(a: string, b: string)
    requires a != [] && b != [] && a[0] != b[0]
    ensures CodePointLe(a, b) <==> a[0] < b[0]
  {
    assert a[..0] == b[..0];
    if CodePointLe(a, b) {
      var k :| 0 <= k < |a| && k < |b| && a[..k] == b[..k] && a[k] < b[k];
      if k > 0 { SamePrefixHead(a, b, k); }
    }
  }

  lemma CodePointLeTails(a: string, b: string)
    requires a != [] && b != [] && a[0] == b[0]
    ensures CodePointLe(a, b) <==> CodePointLe(a[1..], b[1..])
  {
    var c, d := a[1..], b[1..];
    assert a == [a[0]] + c && b == [b[0]] + d;
    if k :| 0 <= k < |c| && k < |d| && c[..k] == d[..k] && c[k] < d[k] {
      assert a[..k + 1] == [a[0]] + c[..k] && b[..k + 1] == [b[0]] + d[..k];
      assert a[k + 1] < b[k + 1];
    }
    if k :| 0 <= k < |a| && k < |b| && a[..k] == b[..k] && a[k] < b[k] {
      assert c[..k - 1] == a[..k][1..] && d[..k - 1] == b[..k][1..];
      assert c[k - 1] < d[k - 1];
    }
  }

  /** The recursive comparison is Python's. */
  lemma {:induction false} StringLeMeaning(a: string, b: string)
    ensures StringLe(a, b) <==> CodePointLe(a, b)
  {
    hide CodePointLe;
    if a != [] && b != [] {
      if a[0] == b[0] {
        CodePointLeTails(a, b);
        StringLeMeaning(a[1..], b[1..]);
      } else {
        CodePointLeHeads(a, b);
      }
    } else {
      EmptyComesFirst(a, b);
    }
  }

  lemma EmptyComesFirst(a: string, b: string)
    requires a == [] || b == []
    ensures CodePointLe(a, b) <==> a == []
  {
  }

  // ---- Joining ----

  predicate Free(s: string, c: char) {
    forall i :: 0 <= i < |s| ==> s[i] != c
  }

  lemma FreeConcat(a: string, b: string, c: char)
    requires Free(a, c) && Free(b, c)
    ensures Free(a + b, c)
  {
  }

  /** Splitting at a known length. */
  lemma SplitAt(a: string, b: string, c: string, d: string)
    requires a + b == c + d && (|a| == |c| || |b| == |d|)
    ensures a == c && b == d
  {
    assert |a| == |c|;
    assert a == (a + b)[..|a|] && c == (c + d)[..|c|];
    assert b == (a + b)[|a|..] && d == (c + d)[|c|..];
  }

  function Join(sep: char, parts: seq<string>): (r: string)
    ensures parts != [] ==> parts[0] <= r
  {
    if parts == [] then ""
    else if |parts| == 1 then parts[0]
    else parts[0] + [sep] + Join(sep, parts[1..])
  }

  lemma SplitAtFirst(sep: char, p: string, u: string, q: string, v: string)
    requires Free(p, sep) && Free(q, sep)
    requires p + [sep] + u == q + [sep] + v
    ensures p == q && u == v
  {
    var l, r := p + [sep] + u, q + [sep] + v;
    assert l[|p|] == sep && r[|q|] == sep;
    assert |p| == |q|;
    assert p == l[..|p|] && q == r[..|q|];
    assert u == l[|p| + 1..] && v == r[|q| + 1..];
  }

  /** Joining is injective on non-empty lists whose parts do not contain the separator. */
  lemma {:induction false} JoinInjective(sep: char, a: seq<string>, b: seq<string>)
    requires a != [] && b != []
    requires forall i :: 0 <= i < |a| ==> Free(a[i], sep)
    requires forall i :: 0 <= i < |b| ==> Free(b[i], sep)
    requires Join(sep, a) == Join(sep, b)
    ensures a == b
  {
    if |a| > 1 {
      assert Join(sep, a)[|a[0]|] == sep;
    }
    if |b| > 1 {
      assert Join(sep, b)[|b[0]|] == sep;
    }
    if |a| > 1 && |b| > 1 {
      SplitAtFirst(sep, a[0], Join(sep, a[1..]), b[0], Join(sep, b[1..]));
      JoinInjective(sep, a[1..], b[1..]);
      assert a == [a[0]] + a[1..] && b == [b[0]] + b[1..];
    }
  }

  /** The last part may hold the separator: the number of parts says where it starts. */
  lemma {:induction false} JoinInjectiveLast(sep: char, a: seq<string>, b: seq<string>)
    requires a != [] && |a| == |b|
    requires forall i :: 0 <= i < |a| - 1 ==> Free(a[i], sep) && Free(b[i], sep)
    requires Join(sep, a) == Join(sep, b)
    ensures a == b
  {
    if |a| > 1 {
      SplitAtFirst(sep, a[0], Join(sep, a[1..]), b[0], Join(sep, b[1..]));
      JoinInjectiveLast(sep, a[1..], b[1..]);
      assert a == [a[0]] + a[1..] && b == [b[0]] + b[1..];
    }
  }

  /** What is appended to the last part is appended to the whole. */
  lemma {:induction false} JoinAppend(sep: char, parts: seq<string>, last: string, more: string)
    ensures Join(sep, parts + [last + more]) == Join(sep, parts + [last]) + more
  {
    if parts != [] {
      var u, v := parts + [last + more], parts + [last];
      assert u[1..] == parts[1..] + [last + more] && v[1..] == parts[1..] + [last];
      JoinAppend(sep, parts[1..], last, more);
      assert parts[0] + [sep] + (Join(sep, v[1..]) + more) == parts[0] + [sep] + Join(sep, v[1..]) + more;
    }
  }

  /** A part that is itself joined can be taken apart. */
  lemma {:induction false} JoinNested(sep: char, xs: seq<string>, ys: seq<string>)
    requires xs != [] && ys != []
    ensures Join(sep, xs + [Join(sep, ys)]) == Join(sep, xs + ys) == Join(sep, [Join(sep, xs)] + ys)
  {
    var u, v, w := xs + [Join(sep, ys)], xs + ys, [Join(sep, xs)] + ys;
    assert w[1..] == ys;
    if |xs| == 1 {
      assert u[1..] == [Join(sep, ys)] && v[1..] == ys;
    } else {
      assert u[1..] == xs[1..] + [Join(sep, ys)] && v[1..] == xs[1..] + ys;
      JoinNested(sep, xs[1..], ys);
      assert ([Join(sep, xs[1..])] + ys)[1..] == ys;
      var a, b, c := xs[0] + [sep], Join(sep, xs[1..]), [sep] + Join(sep, ys);
      assert a + (b + [sep] + Join(sep, ys)) == (a + b) + [sep] + Join(sep, ys);
    }
  }

  lemma {:induction false} JoinFree(sep: char, parts: seq<string>, c: char)
    requires c != sep
    requires forall i :: 0 <= i < |parts| ==> Free(parts[i], c)
    ensures Free(Join(sep, parts), c)
  {
    if |parts| > 1 {
      JoinFree(sep, parts[1..], c);
    }
  }

  // ---- strip().lower() ----

  /** The characters `str.strip()` removes. */
  predicate IsSpace(c: char) {
    var n := c as int;
    9 <= n <= 13 || 28 <= n <= 32 || n == 0x85 || n == 0xa0 || n == 0x1680 || 0x2000 <= n <= 0x200a
    || n == 0x2028 || n == 0x2029 || n == 0x202f || n == 0x205f || n == 0x3000
  }

  function StripLeft(s: string): string {
    if s != [] && IsSpace(s[0]) then StripLeft(s[1..]) else s
  }

  function StripRight(s: string): string {
    if s != [] && IsSpace(s[|s| - 1]) then StripRight(s[..|s| - 1]) else s
  }

  function Strip(s: string): string {
    StripRight(StripLeft(s))
  }

  predicate AllSpace(s: string) {
    forall i :: 0 <= i < |s| ==> IsSpace(s[i])
  }

  lemma {:induction false} StripLeftIsSuffix(s: string) returns (before: string)
    ensures s == before + StripLeft(s) && AllSpace(before)
    ensures StripLeft(s) != "" ==> !IsSpace(StripLeft(s)[0])
  {
    hide IsSpace;
    before := "";
    if s != "" && IsSpace(s[0]) {
      var rest := StripLeftIsSuffix(s[1..]);
      before := [s[0]] + rest;
    }
  }

  lemma {:induction false} StripRightIsPrefix(s: string) returns (after: string)
    ensures s == StripRight(s) + after && AllSpace(after)
    ensures StripRight(s) != "" ==> !IsSpace(StripRight(s)[|StripRight(s)| - 1])
  {
    hide IsSpace;
    after := "";
    if s != "" && IsSpace(s[|s| - 1]) {
      var rest := StripRightIsPrefix(s[..|s| - 1]);
      after := rest + [s[|s| - 1]];
      assert s == s[..|s| - 1] + [s[|s| - 1]];
    }
  }

  /** Stripping removes the spaces at both ends and nothing else. */
  lemma StripMeaning(s: string) returns (before: string, after: string)
    ensures s == before + Strip(s) + after && AllSpace(before) && AllSpace(after)
    ensures Strip(s) != "" ==> !IsSpace(Strip(s)[0]) && !IsSpace(Strip(s)[|Strip(s)| - 1])
  {
    hide IsSpace, StripLeft, StripRight;
    before := StripLeftIsSuffix(s);
    after := StripRightIsPrefix(StripLeft(s));
    assert Strip(s) != "" ==> Strip(s)[0] == StripLeft(s)[0];
  }

  /**
   Lower-casing as far as comparison with an ASCII word can tell: the only characters whose
   lower case is an ASCII letter are A-Z and the Kelvin sign.
   */
  function LowerChar(c: char): char {
    if 'A' <= c <= 'Z' then (c as int + 32) as char
    else if c == '\U{212A}' then 'k'
    else c
  }

  function Lower(s: string): string {
    if s == "" then "" else [LowerChar(s[0])] + Lower(s[1..])
  }

  lemma {:induction false} LowerFixed(s: string)
    requires forall i :: 0 <= i < |s| ==> LowerChar(s[i]) == s[i]
    ensures Lower(s) == s
  {
    if s != "" {
      LowerFixed(s[1..]);
    }
  }

  /**
   Lower-casing keeps the length, moves the capital letters to the small ones 32 code points up,
   and leaves every other ASCII character alone.
   */
  lemma {:induction false} LowerMeaning(s: string)
    ensures |Lower(s)| == |s|
    ensures forall i :: 0 <= i < |s| ==>
              && Lower(s)[i] == LowerChar(s[i])
              && ('A' <= s[i] <= 'Z' ==> Lower(s)[i] as int == s[i] as int + 32)
              && (s[i] as int < 128 && !('A' <= s[i] <= 'Z') ==> Lower(s)[i] == s[i])
  {
    if s != "" {
      LowerMeaning(s[1..]);
    }
  }

  /** The ASCII characters that count as space. */
  lemma AsciiSpaces(c: char)
    requires c as int < 128
    ensures IsSpace(c) <==> c == ' ' || '\t' <= c <= '\r' || '\U{1C}' <= c <= '\U{1F}'
  {
  }

  // ---- Decimal digits ----

  /** The number a run of decimal digits stands for. */
  function DigitsValue(s: string): int {
    if s == "" then 0 else 10 * DigitsValue(s[..|s| - 1]) + (s[|s| - 1] as int - '0' as int)
  }

  lemma DigitsValueSnoc(s: string, c: char)
    ensures DigitsValue(s + [c]) == 10 * DigitsValue(s) + (c as int - '0' as int)
  {
    assert (s + [c])[..|s|] == s;
  }

  predicate AllDigits(s: string) {
    forall i :: 0 <= i < |s| ==> IsDigit(s[i])
  }

  function Pow10(n: nat): (r: nat)
    ensures r > 0
  {
    if n == 0 then 1 else 10 * Pow10(n - 1)
  }

  const DIGITS := "0123456789"

  predicate IsDigit(c: char) { '0' <= c <= '9' }

  /** Zero-padded digits of `n`, the low-order `w` of them. */
  function PadText(n: int, w: nat): (r: string)
    ensures |r| == w
    ensures forall i :: 0 <= i < |r| ==> IsDigit(r[i])
    decreases w
  {
    if w == 0 then "" else PadText(n / 10, w - 1) + [DIGITS[n % 10]]
  }

  lemma {:induction false} PadTextInjective(m: nat, n: nat, w: nat)
    requires m < Pow10(w) && n < Pow10(w)
    requires PadText(m, w) == PadText(n, w)
    ensures m == n
  {
    if w > 0 {
      var a, b := PadText(m, w), PadText(n, w);
      assert a[..w - 1] == PadText(m / 10, w - 1) && b[..w - 1] == PadText(n / 10, w - 1);
      assert a[w - 1] == DIGITS[m % 10] && b[w - 1] == DIGITS[n % 10];
      PadTextInjective(m / 10, n / 10, w - 1);
    }
  }

  lemma AppendDigit(front: string, d: int)
    requires 0 <= d < 10
    ensures |DIGITS| == 10 && IsDigit(DIGITS[d]) && (DIGITS[d] == '0' <==> d == 0)
    ensures DigitsValue(front + [DIGITS[d]]) == 10 * DigitsValue(front) + d
  {
    assert DIGITS[d] as int - '0' as int == d;
    DigitsValueSnoc(front, DIGITS[d]);
  }

  /** Zero-padded digits stand for the number, if they are enough. */
  lemma {:induction false} PadTextValue(n: nat, w: nat)
    requires n < Pow10(w)
    ensures AllDigits(PadText(n, w)) && DigitsValue(PadText(n, w)) == n
  {
    if w > 0 {
      hide DIGITS, IsDigit, DigitsValue;
      PadTextValue(n / 10, w - 1);
      AppendDigit(PadText(n / 10, w - 1), n % 10);
    }
  }

  lemma NoDigits()
    ensures DigitsValue("") == 0
  {
  }

  /** The digits of a number stand for it, and begin with a zero only for zero itself. */
  lemma {:induction false} NatTextValue(n: nat)
    ensures AllDigits(NatText(n)) && DigitsValue(NatText(n)) == n
    ensures n > 0 ==> NatText(n)[0] != '0'
    ensures n < 10 ==> |NatText(n)| == 1
  {
    hide DIGITS, IsDigit, DigitsValue;
    var front := if n < 10 then "" else NatText(n / 10);
    if n >= 10 {
      NatTextValue(n / 10);
    } else {
      NoDigits();
    }
    AppendDigit(front, n % 10);
  }

  function NatText(n: nat): (r: string)
    ensures r != []
    ensures forall i :: 0 <= i < |r| ==> IsDigit(r[i])
  {
    (if n < 10 then "" else NatText(n / 10)) + [DIGITS[n % 10]]
  }

  lemma {:induction false} NatTextInjective(m: nat, n: nat)
    requires NatText(m) == NatText(n)
    ensures m == n
  {
    var a, b := NatText(m), NatText(n);
    assert a[|a| - 1] == DIGITS[m % 10] && b[|b| - 1] == DIGITS[n % 10];
    assert a[..|a| - 1] == if m < 10 then "" else NatText(m / 10);
    assert b[..|b| - 1] == if n < 10 then "" else NatText(n / 10);
    if m >= 10 && n >= 10 {
      NatTextInjective(m / 10, n / 10);
    }
  }

  /** `str` of a two-decimal amount given in cents. */
  function AmountText(cents: int): string {
    if cents < 0 then "-" + CentsText(-cents) else CentsText(cents)
  }

  function CentsText(cents: nat): (r: string)
    ensures r != [] && IsDigit(r[0])
  {
    NatText(cents / 100) + ("." + PadText(cents % 100, 2))
  }

  lemma CentsTextInjective(a: nat, b: nat)
    requires CentsText(a) == CentsText(b)
    ensures a == b
  {
    SplitAt(NatText(a / 100), "." + PadText(a % 100, 2), NatText(b / 100), "." + PadText(b % 100, 2));
    SplitAt(".", PadText(a % 100, 2), ".", PadText(b % 100, 2));
    NatTextInjective(a / 100, b / 100);
    assert Pow10(2) == 100;
    PadTextInjective(a % 100, b % 100, 2);
  }

  /**
   The text of an amount: a minus sign if it is negative, the whole units without leading zeros, a
   point, and two digits of hundredths.
   */
  lemma AmountTextReads(cents: int) returns (sign: string, units: string, hundredths: string)
    ensures AmountText(cents) == sign + (units + ("." + hundredths))
    ensures sign == if cents < 0 then "-" else ""
    ensures AllDigits(units) && AllDigits(hundredths) && |hundredths| == 2
    ensures |units| > 0 && (|units| > 1 ==> units[0] != '0')
    ensures 100 * DigitsValue(units) + DigitsValue(hundredths) == if cents < 0 then -cents else cents
  {
    var n := if cents < 0 then -cents else cents;
    sign, units, hundredths := if cents < 0 then "-" else "", NatText(n / 100), PadText(n % 100, 2);
    NatTextValue(n / 100);
    assert Pow10(2) == 100;
    PadTextValue(n % 100, 2);
    assert "" + CentsText(n) == CentsText(n);
  }

  lemma AmountTextSign(a: int)
    ensures AmountText(a) != ""
    ensures (AmountText(a)[0] == '-') == (a < 0)
  {
  }

  lemma AmountTextInjective(a: int, b: int)
    requires AmountText(a) == AmountText(b)
    ensures a == b
  {
    hide CentsText;
    AmountTextSign(a);
    AmountTextSign(b);
    if a < 0 && b < 0 {
      SplitAt("-", CentsText(-a), "-", CentsText(-b));
      CentsTextInjective(-a, -b);
    } else if a >= 0 && b >= 0 {
      CentsTextInjective(a, b);
    }
  }

  lemma AmountTextFree(cents: int, c: char)
    requires c != '-' && c != '.' && !IsDigit(c)
    ensures Free(AmountText(cents), c)
  {
  }
}
