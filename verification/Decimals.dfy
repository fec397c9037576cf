/**
 Python's `Decimal` under its default context: 28 significant digits, ties to even
 (roundTiesToEven, section 4.3.1 of IEEE 754-2008), together with the `Numeric(20, 4)`
 column that stores the results.

 A decimal is a coefficient and an exponent of ten. Rounding is defined on the exact rational
 result `n / d`, with `d > 0`.
 */
module Decimals {
  import opened Base
  import Strings

  const PREC: int := 10000000000000000000000000000 // 10^28
  const PREC_LOW: int := 1000000000000000000000000000 // 10^27

  /** Magnitudes below this many cents fit a `Numeric(18, 2)` column. */
  const AMOUNT_LIMIT: int := 1000000000000000000 // 10^18

  /** The largest number of amounts whose sum is exact whatever they are. */
  const EXACT_COUNT: int := 10000000000 // 10^10

  /** Magnitudes below this many ten-thousandths fit a `Numeric(20, 4)` column. */
  const STORED_LIMIT: int := 100000000000000000000 // 10^20

  /** Counts below this many fit an `INTEGER` column. */
  const COUNT_LIMIT: int := 2147483648 // 2^31

  datatype Decimal = Decimal(coeff: int, exp: int)

  function Num(x: Decimal): int {
    if x.exp >= 0 then x.coeff * Strings.Pow10(x.exp) else x.coeff
  }

  function Den(x: Decimal): (r: nat)
    ensures r > 0
  {
    if x.exp >= 0 then 1 else Strings.Pow10(-x.exp)
  }

  /** `x` is exactly the rational `n / d`. */
  predicate Equals(x: Decimal, n: int, d: int) {
    Num(x) * d == n * Den(x)
  }

  /** `x <= y` as numbers. */
  predicate Le(x: Decimal, y: Decimal) {
    Num(x) * Den(y) <= Num(y) * Den(x)
  }

  /** An amount of money: two decimals. */
  function Cents(n: int): Decimal {
    Decimal(n, -2)
  }

  // ---- Rounding a quotient to an integer ----

  /** `c` is the integer nearest to `n / d`, the even one of two equally near. */
  predicate NearestEven(n: int, d: int, c: int) {
    -d <= 2 * (c * d - n) <= d && ((2 * (c * d - n) == d || 2 * (c * d - n) == -d) ==> c % 2 == 0)
  }

  function RoundHalfEven(n: int, d: int): int
    requires d > 0
  {
    var q, r := n / d, n % d;
    if 2 * r < d then q else if 2 * r > d then q + 1 else if q % 2 == 0 then q else q + 1
  }

  lemma MultipleGrows(b: int, k: int, d: int, m: int)
    requires d > 0 && k >= m
    ensures b * d + m * d <= (b + k) * d
  {
    assert (b + k) * d == b * d + m * d + (k - m) * d;
    assert (k - m) * d >= 0;
  }

  lemma MultiplesApart(b: int, c: int, d: int)
    requires d > 0 && b < c
    ensures b * d + d <= c * d
    ensures c != b + 1 ==> b * d + 2 * d <= c * d
  {
    MultipleGrows(b, c - b, d, 1);
    if c != b + 1 {
      MultipleGrows(b, c - b, d, 2);
    }
  }

  lemma NearestEvenUnique(n: int, d: int, b: int, c: int)
    requires d > 0 && NearestEven(n, d, b) && NearestEven(n, d, c)
    ensures b == c
  {
    if b < c {
      MultiplesApart(b, c, d);
    } else if c < b {
      MultiplesApart(c, b, d);
    }
  }

  /** The computation picks exactly the nearest-even integer. */
  lemma RoundHalfEvenIsNearest(n: int, d: int, c: int)
    requires d > 0
    ensures NearestEven(n, d, c) <==> c == RoundHalfEven(n, d)
  {
    var q, r := n / d, n % d;
    assert n == q * d + r;
    assert (q + 1) * d == q * d + d;
    assert NearestEven(n, d, RoundHalfEven(n, d));
    if NearestEven(n, d, c) {
      NearestEvenUnique(n, d, c, RoundHalfEven(n, d));
    }
  }

  /** Rounding never crosses an integer. */
  lemma RoundKeepsOrder(n: int, d: int, k: int)
    requires d > 0
    ensures k * d <= n ==> k <= RoundHalfEven(n, d)
    ensures n <= k * d ==> RoundHalfEven(n, d) <= k
  {
    var c := RoundHalfEven(n, d);
    RoundHalfEvenIsNearest(n, d, c);
    if k * d <= n && c < k {
      MultiplesApart(c, k, d);
    }
    if n <= k * d && k < c {
      MultiplesApart(k, c, d);
    }
  }

  lemma RoundExactQuotient(k: int, d: int)
    requires d > 0
    ensures RoundHalfEven(k * d, d) == k
  {
    RoundKeepsOrder(k * d, d, k);
  }

  // ---- Rounding to 28 significant digits ----

  /** A quotient `num / den` scaled by `10^exp`. */
  datatype Scaled = Scaled(num: nat, den: nat, exp: int)

  ghost predicate Normal(s: Scaled) {
    s.den > 0 && PREC_LOW * s.den <= s.num < PREC * s.den
  }

  /** Shifts `a / d` by powers of ten until its integer part has exactly 28 digits. */
  function Normalize(a: nat, d: nat, e: int): (s: Scaled)
    requires a > 0 && d > 0
    ensures Normal(s)
    decreases if a < PREC_LOW * d then PREC_LOW * d - a else if a >= PREC * d then a - d else 0
  {
    if a < PREC_LOW * d then Normalize(10 * a, d, e - 1)
    else if a >= PREC * d then Normalize(a, 10 * d, e + 1)
    else Scaled(a, d, e)
  }

  /** `m` with the sign of `n`. */
  function Signed(n: int, m: int): int {
    if n < 0 then -m else m
  }

  /**
   The 28-digit decimal nearest to `n / d`. A carry to 10^28 is left in the coefficient: it is
   the same number as 10^27 with the next exponent.
   */
  function Round(n: int, d: int): Decimal
    requires d > 0
  {
    if n == 0 then Decimal(0, 0)
    else
      var s := Normalize(Signed(n, n), d, 0);
      Decimal(RoundHalfEven(Signed(n, s.num), s.den), s.exp)
  }

  /** A quotient below 10^28 is only ever scaled up. */
  lemma {:induction false} NormalizeUp(a: nat, d: nat, e: int)
    requires 0 < a < PREC * d && d > 0
    ensures var s := Normalize(a, d, e);
            s.den == d && s.exp <= e && s.num == a * Strings.Pow10(e - s.exp)
    decreases PREC * d - a
  {
    if a < PREC_LOW * d {
      NormalizeUp(10 * a, d, e - 1);
      var s := Normalize(10 * a, d, e - 1);
      assert Strings.Pow10(e - s.exp) == 10 * Strings.Pow10(e - 1 - s.exp);
      assert (10 * a) * Strings.Pow10(e - 1 - s.exp) == a * (10 * Strings.Pow10(e - 1 - s.exp));
    }
  }

  lemma CrossLess(a: int, b: int, c: int, d: int, k: int)
    requires b > 0 && d > 0 && a * d == c * b
    ensures a < k * b <==> c < k * d
  {
    assert (k * b - a) * d == (k * d - c) * b;
    if a < k * b {
      assert (k * b - a) * d > 0;
    }
    if c < k * d {
      assert (k * d - c) * b > 0;
    }
  }

  /** Normalising depends on the quotient alone, not on the fraction that names it. */
  lemma {:induction false} NormalizeRatio(a: nat, b: nat, c: nat, d: nat, e: int)
    requires a > 0 && b > 0 && c > 0 && d > 0 && a * d == c * b
    ensures var s, t := Normalize(a, b, e), Normalize(c, d, e);
            s.exp == t.exp && s.num * t.den == t.num * s.den
    decreases if a < PREC_LOW * b then PREC_LOW * b - a else if a >= PREC * b then a - b else 0
  {
    CrossLess(a, b, c, d, PREC_LOW);
    CrossLess(a, b, c, d, PREC);
    if a < PREC_LOW * b {
      assert (10 * a) * d == (10 * c) * b;
      NormalizeRatio(10 * a, b, 10 * c, d, e - 1);
    } else if a >= PREC * b {
      assert a * (10 * d) == c * (10 * b);
      NormalizeRatio(a, 10 * b, c, 10 * d, e + 1);
    }
  }

  lemma ScaleBound(x: int, b: int, d: int)
    requires b > 0 && d > 0
    ensures (-b <= x <= b) <==> (-(b * d) <= x * d <= b * d)
    ensures (x == b || x == -b) <==> (x * d == b * d || x * d == -(b * d))
  {
    if x > b { assert (x - b) * d > 0; }
    if x < -b { assert (-b - x) * d > 0; }
    if -b <= x <= b { assert (b - x) * d >= 0 && (x + b) * d >= 0; }
    assert x * d - b * d == (x - b) * d;
    assert x * d + b * d == (x + b) * d;
  }

  lemma NearestEvenRatio(a: int, b: int, c: int, d: int, k: int)
    requires b > 0 && d > 0 && a * d == c * b && NearestEven(a, b, k)
    ensures NearestEven(c, d, k)
  {
    var x, y := 2 * (k * b - a), 2 * (k * d - c);
    assert x * d == y * b;
    ScaleBound(x, b, d);
    ScaleBound(y, d, b);
    assert b * d == d * b;
  }

  lemma RoundHalfEvenRatio(a: int, b: int, c: int, d: int)
    requires b > 0 && d > 0 && a * d == c * b
    ensures RoundHalfEven(a, b) == RoundHalfEven(c, d)
  {
    var k := RoundHalfEven(a, b);
    RoundHalfEvenIsNearest(a, b, k);
    NearestEvenRatio(a, b, c, d, k);
    RoundHalfEvenIsNearest(c, d, k);
  }

  /** Equal quotients round to the same decimal. */
  lemma RoundRatio(a: int, b: int, c: int, d: int)
    requires b > 0 && d > 0 && a * d == c * b
    ensures Round(a, b) == Round(c, d)
  {
    SameSign(a, b, c, d);
    if a != 0 {
      NormalizeRatio(Signed(a, a), b, Signed(c, c), d, 0);
      var s, t := Normalize(Signed(a, a), b, 0), Normalize(Signed(c, c), d, 0);
      assert Signed(a, s.num) * t.den == Signed(c, t.num) * s.den;
      RoundHalfEvenRatio(Signed(a, s.num), s.den, Signed(c, t.num), t.den);
    }
  }

  lemma SameSign(a: int, b: int, c: int, d: int)
    requires b > 0 && d > 0 && a * d == c * b
    ensures a == 0 <==> c == 0
    ensures a < 0 <==> c < 0
    ensures (-a) * d == (-c) * b
  {
    if a > 0 { assert a * d > 0; }
    if a < 0 { assert (-a) * d > 0; }
    if c > 0 { assert c * b > 0; }
    if c < 0 { assert (-c) * b > 0; }
  }

  // ---- What the rounded decimal is ----

  /** A quotient of 10^28 or more is only ever scaled down. */
  lemma {:induction false} NormalizeDown(a: nat, d: nat, e: int)
    requires d > 0 && PREC_LOW * d <= a
    ensures var s := Normalize(a, d, e);
            s.num == a && s.exp >= e && s.den == d * Strings.Pow10(s.exp - e)
    decreases a - d
  {
    if a >= PREC * d {
      NormalizeDown(a, 10 * d, e + 1);
      var s := Normalize(a, 10 * d, e + 1);
      assert Strings.Pow10(s.exp - e) == 10 * Strings.Pow10(s.exp - (e + 1));
      assert (10 * d) * Strings.Pow10(s.exp - (e + 1)) == d * (10 * Strings.Pow10(s.exp - (e + 1)));
    }
  }

  /** The factor a non-negative exponent stands for. */
  function Scale(x: Decimal): nat {
    if x.exp >= 0 then Strings.Pow10(x.exp) else 1
  }

  lemma NormalizeScales(m: nat, d: nat)
    requires m > 0 && d > 0
    ensures var s := Normalize(m, d, 0);
            s.num == m * Den(Decimal(0, s.exp)) && s.den == d * Scale(Decimal(0, s.exp))
  {
    if m < PREC * d {
      NormalizeUp(m, d, 0);
    } else {
      NormalizeDown(m, d, 0);
    }
  }

  lemma NormalRounds(n: int, s: Scaled)
    requires Normal(s)
    ensures var c := RoundHalfEven(Signed(n, s.num), s.den);
            && (PREC_LOW <= c <= PREC || PREC_LOW <= -c <= PREC)
            && NearestEven(Signed(n, s.num), s.den, c)
  {
    RoundHalfEvenIsNearest(Signed(n, s.num), s.den, RoundHalfEven(Signed(n, s.num), s.den));
    RoundBetween(s.num, s.den, PREC_LOW, PREC);
  }

  lemma RoundBetween(m: int, d: int, lo: int, hi: int)
    requires d > 0 && lo * d <= m <= hi * d
    ensures lo <= RoundHalfEven(m, d) <= hi
    ensures lo <= -RoundHalfEven(-m, d) <= hi
  {
    hide RoundHalfEven;
    RoundKeepsOrder(m, d, lo);
    RoundKeepsOrder(m, d, hi);
    assert (-lo) * d == -(lo * d) && (-hi) * d == -(hi * d);
    RoundKeepsOrder(-m, d, -lo);
    RoundKeepsOrder(-m, d, -hi);
  }

  /**
   Correct rounding: 28 significant digits, and the exact quotient is within half a unit in the
   last of them, ties going to the even coefficient.
   */
  lemma RoundIsCorrect(n: int, d: int)
    requires d > 0 && n != 0
    ensures var x := Round(n, d);
            && (PREC_LOW <= x.coeff <= PREC || PREC_LOW <= -x.coeff <= PREC)
            && NearestEven(n * Den(x), d * Scale(x), x.coeff)
  {
    NormalizeScales(Signed(n, n), d);
    var s, x := Normalize(Signed(n, n), d, 0), Round(n, d);
    NormalRounds(n, s);
    SignedTwice(n, Den(x));
  }

  lemma SignedTwice(n: int, p: int)
    ensures Signed(n, Signed(n, n) * p) == n * p
  {
  }

  /** A quotient below 10^28, spelled out. */
  lemma RoundForm(n: int, d: int) returns (j: nat)
    requires d > 0 && n != 0 && -(PREC * d) < n < PREC * d
    ensures Round(n, d) == Decimal(RoundHalfEven(n * Strings.Pow10(j), d), 0 - j)
    ensures PREC_LOW * d <= Signed(n, n) * Strings.Pow10(j)
  {
    NormalizeUp(Signed(n, n), d, 0);
    var s := Normalize(Signed(n, n), d, 0);
    j := -s.exp;
    assert Signed(n, s.num) == n * Strings.Pow10(j);
  }

  lemma Pow10Hundred(j: nat)
    requires j >= 2
    ensures Strings.Pow10(j) == 100 * Strings.Pow10(j - 2)
  {
    assert Strings.Pow10(j) == 10 * Strings.Pow10(j - 1);
  }

  lemma CentsForm(n: int)
    ensures Num(Cents(n)) == n && Den(Cents(n)) == 100
  {
    assert Strings.Pow10(2) == 10 * Strings.Pow10(1);
  }

  /** A two-decimal number of at most 28 digits survives rounding unchanged. */
  lemma RoundExact(cents: int)
    requires -PREC < cents < PREC
    ensures Equals(Round(cents, 100), cents, 100)
  {
    if cents != 0 {
      var j := RoundForm(cents, 100);
      assert Strings.Pow10(0) == 1 && Strings.Pow10(1) == 10;
      assert j >= 2;
      Pow10Hundred(j);
      ExactShift(cents, Strings.Pow10(j - 2));
    }
  }

  lemma ExactShift(n: int, p: int)
    ensures RoundHalfEven(n * (100 * p), 100) * 100 == n * (100 * p)
  {
    assert n * (100 * p) == (n * p) * 100;
    RoundExactQuotient(n * p, 100);
  }

  // ---- Summing ----

  function Add(x: Decimal, y: Decimal): Decimal {
    Round(Num(x) * Den(y) + Num(y) * Den(x), Den(x) * Den(y))
  }

  /** `sum(amounts, start=acc)`: repeated rounded addition. */
  function Accumulate(acc: Decimal, amounts: seq<int>): Decimal
    decreases |amounts|
  {
    if amounts == [] then acc else Accumulate(Add(acc, Cents(amounts[0])), amounts[1..])
  }

  lemma AddCross(m: int, d: int, a: int, n: int, e: int, b: int)
    requires m * 100 == a * d && n * 100 == b * e
    ensures (m * e + n * d) * 100 == (a + b) * (d * e)
  {
    assert (m * e) * 100 == (a * d) * e == a * (d * e);
    assert (n * d) * 100 == (b * e) * d == b * (d * e);
  }

  lemma AddRatio(x: Decimal, a: int, y: Decimal, b: int)
    requires Equals(x, a, 100) && Equals(y, b, 100)
    ensures Add(x, y) == Round(a + b, 100)
  {
    AddCross(Num(x), Den(x), a, Num(y), Den(y), b);
    RoundRatio(Num(x) * Den(y) + Num(y) * Den(x), Den(x) * Den(y), a + b, 100);
  }

  /** Every amount fits its `Numeric(18, 2)` column. */
  predicate InColumn(cents: int) {
    -AMOUNT_LIMIT < cents < AMOUNT_LIMIT
  }

  predicate AllInColumn(amounts: seq<int>) {
    forall i :: 0 <= i < |amounts| ==> InColumn(amounts[i])
  }

  lemma {:induction false} AccumulateExact(a: int, amounts: seq<int>)
    requires AllInColumn(amounts)
    requires -PREC < a - |amounts| * (AMOUNT_LIMIT - 1) && a + |amounts| * (AMOUNT_LIMIT - 1) < PREC
    ensures Accumulate(Round(a, 100), amounts) == Round(a + Sum(amounts), 100)
    decreases |amounts|
  {
    if amounts != [] {
      var x, rest := amounts[0], amounts[1..];
      assert InColumn(x);
      assert |amounts| * (AMOUNT_LIMIT - 1) == |rest| * (AMOUNT_LIMIT - 1) + (AMOUNT_LIMIT - 1);
      RoundExact(a);
      CentsForm(x);
      AddRatio(Round(a, 100), a, Cents(x), x);
      assert forall i :: 0 <= i < |rest| ==> rest[i] == amounts[i + 1];
      AccumulateExact(a + x, rest);
    }
  }

  /**
   Repeated 28-digit addition loses nothing on up to 10^10 column amounts, so the order of
   summing cannot matter either.
   */
  lemma SumIsExact(amounts: seq<int>)
    requires AllInColumn(amounts) && |amounts| <= EXACT_COUNT
    ensures Accumulate(Decimal(0, 0), amounts) == Round(Sum(amounts), 100)
    ensures Equals(Accumulate(Decimal(0, 0), amounts), Sum(amounts), 100)
  {
    assert |amounts| * (AMOUNT_LIMIT - 1) <= EXACT_COUNT * (AMOUNT_LIMIT - 1) by {
      assert (EXACT_COUNT - |amounts|) * (AMOUNT_LIMIT - 1) >= 0;
    }
    AccumulateExact(0, amounts);
    SumBound(amounts, AMOUNT_LIMIT - 1);
    RoundExact(Sum(amounts));
  }

  function Copies(n: nat, x: int): (r: seq<int>)
    ensures |r| == n
  {
    seq(n, i => x)
  }

  lemma {:induction false} SumCopies(n: nat, x: int)
    ensures Sum(Copies(n, x)) == n * x
  {
    if n > 0 {
      assert Copies(n, x)[1..] == Copies(n - 1, x);
      SumCopies(n - 1, x);
      assert n * x == x + (n - 1) * x;
    }
  }

  lemma {:induction false} AccumulateConcat(acc: Decimal, xs: seq<int>, ys: seq<int>)
    ensures Accumulate(acc, xs + ys) == Accumulate(Accumulate(acc, xs), ys)
    decreases |xs|
  {
    if xs == [] {
      assert xs + ys == ys;
    } else {
      assert (xs + ys)[1..] == xs[1..] + ys;
      AccumulateConcat(Add(acc, Cents(xs[0])), xs[1..], ys);
    }
  }

  const MOST: int := EXACT_COUNT * (AMOUNT_LIMIT - 1)

  // The sum of one largest amount too many, and the 28 digits that are left of it.
  const TOO_MUCH: int := MOST + AMOUNT_LIMIT - 1
  const LEFT_OVER: int := TOO_MUCH + 1

  /** Of 29 digits of cents the last one is rounded away. */
  lemma OneDecimal(n: int)
    requires PREC <= n < 10 * PREC
    ensures Round(n, 100) == Decimal(RoundHalfEven(10 * n, 100), -1)
  {
    assert Normalize(n, 100, 0) == Normalize(10 * n, 100, -1);
    assert Normalize(10 * n, 100, -1) == Scaled(10 * n, 100, -1);
  }

  lemma DigitLost()
    ensures Round(TOO_MUCH, 100) == Round(LEFT_OVER, 100)
    ensures Equals(Round(TOO_MUCH, 100), LEFT_OVER, 100)
  {
    hide Round, Normalize;
    OneDecimal(TOO_MUCH);
    OneDecimal(LEFT_OVER);
    assert Strings.Pow10(0) == 1 && Strings.Pow10(1) == 10;
  }

  lemma {:induction false} ZerosChangeNothing(n: nat)
    ensures Accumulate(Round(TOO_MUCH, 100), Copies(n, 0)) == Round(TOO_MUCH, 100)
  {
    if n > 0 {
      DigitLost();
      CentsForm(0);
      AddRatio(Round(TOO_MUCH, 100), LEFT_OVER, Cents(0), 0);
      assert Copies(n, 0)[1..] == Copies(n - 1, 0);
      ZerosChangeNothing(n - 1);
    }
  }

  lemma TooMuch()
    ensures Accumulate(Decimal(0, 0), Copies(EXACT_COUNT, AMOUNT_LIMIT - 1) + [AMOUNT_LIMIT - 1]) == Round(TOO_MUCH, 100)
  {
    hide Round, Add;
    var m := AMOUNT_LIMIT - 1;
    var most := Copies(EXACT_COUNT, m);
    AccumulateConcat(Decimal(0, 0), most, [m]);
    SumIsExact(most);
    SumCopies(EXACT_COUNT, m);
    RoundExact(MOST);
    CentsForm(m);
    AddRatio(Round(MOST, 100), MOST, Cents(m), m);
    assert [m][1..] == [];
    assert Accumulate(Round(MOST, 100), [m]) == Accumulate(Add(Round(MOST, 100), Cents(m)), []);
  }

  /** `EXACT_COUNT + 1` largest amounts, filled up with zeros. */
  function Overfull(n: nat): (r: seq<int>)
    requires n > EXACT_COUNT
    ensures |r| == n
  {
    Copies(EXACT_COUNT, AMOUNT_LIMIT - 1) + [AMOUNT_LIMIT - 1] + Copies(n - EXACT_COUNT - 1, 0)
  }

  lemma OverfullIsInexact(n: nat)
    requires n > EXACT_COUNT
    ensures AllInColumn(Overfull(n))
    ensures !Equals(Accumulate(Decimal(0, 0), Overfull(n)), Sum(Overfull(n)), 100)
  {
    hide Round, Accumulate;
    var m := AMOUNT_LIMIT - 1;
    var most, zeros := Copies(EXACT_COUNT, m), Copies(n - EXACT_COUNT - 1, 0);
    AccumulateConcat(Decimal(0, 0), most + [m], zeros);
    TooMuch();
    ZerosChangeNothing(n - EXACT_COUNT - 1);
    SumConcat(most + [m], zeros);
    SumConcat(most, [m]);
    SumCopies(EXACT_COUNT, m);
    SumCopies(n - EXACT_COUNT - 1, 0);
    assert Sum([m]) == m;
    DigitLost();
    EqualsOnce(Round(TOO_MUCH, 100), LEFT_OVER, TOO_MUCH);
  }

  lemma EqualsOnce(x: Decimal, a: int, b: int)
    requires Equals(x, a, 100) && a != b
    ensures !Equals(x, b, 100)
  {
    hide Den;
    var d := Den(x);
    assert d > 0;
    assert (a - b) * d == a * d - b * d;
    assert a - b > 0 ==> (a - b) * d > 0;
    assert b - a > 0 ==> (b - a) * d > 0;
  }

  /** All lists of `n` column amounts have exact sums. */
  ghost predicate SumsAreExact(n: nat) {
    forall amounts :: |amounts| == n && AllInColumn(amounts)
                      ==> Equals(Accumulate(Decimal(0, 0), amounts), Sum(amounts), 100)
  }

  /** Up to 10^10 amounts sums are exact whatever they are, and from there on a cent can be lost. */
  lemma SumsAreExactIff(n: nat)
    ensures SumsAreExact(n) <==> n <= EXACT_COUNT
  {
    hide Accumulate, Equals;
    if n <= EXACT_COUNT {
      forall amounts | |amounts| == n && AllInColumn(amounts)
        ensures Equals(Accumulate(Decimal(0, 0), amounts), Sum(amounts), 100)
      {
        SumIsExact(amounts);
      }
    } else {
      OverfullIsInexact(n);
    }
  }

  // ---- Averages ----

  /** `total / count`. */
  function Average(total: Decimal, count: nat): Decimal
    requires count > 0
  {
    Round(Num(total), Den(total) * count)
  }

  lemma AverageRatio(total: Decimal, cents: int, count: nat)
    requires count > 0 && Equals(total, cents, 100)
    ensures Average(total, count) == Round(cents, 100 * count)
  {
    assert Num(total) * (100 * count) == (Num(total) * 100) * count;
    assert cents * (Den(total) * count) == (cents * Den(total)) * count;
    RoundRatio(Num(total), Den(total) * count, cents, 100 * count);
  }

  /**
   A rounded average stays on the same side of every two-decimal number as the exact one: in
   particular it never falls below the minimum or above the maximum.
   */
  lemma AverageKeepsOrder(cents: int, count: nat, k: int)
    requires count > 0 && -(AMOUNT_LIMIT * count) < cents < AMOUNT_LIMIT * count
    ensures k * count <= cents ==> Le(Cents(k), Round(cents, 100 * count))
    ensures cents <= k * count ==> Le(Round(cents, 100 * count), Cents(k))
  {
    CentsForm(k);
    if cents == 0 {
      if k > 0 { assert k * count > 0; }
      if k < 0 { assert (-k) * count > 0; }
    } else {
      var j := AverageForm(cents, count);
      Pow10Hundred(j);
      var p := Strings.Pow10(j - 2);
      ShiftedOrder(k, count, cents, p);
    }
  }

  lemma ShiftedOrder(k: int, count: nat, cents: int, p: nat)
    requires count > 0
    ensures var c := RoundHalfEven(cents * (100 * p), 100 * count);
            && (k * count <= cents ==> k * (100 * p) <= c * 100)
            && (cents <= k * count ==> c * 100 <= k * (100 * p))
  {
    ShiftOrder(k, count, cents, p);
    RoundKeepsOrder(cents * (100 * p), 100 * count, k * p);
    assert k * (100 * p) == (k * p) * 100;
  }

  lemma AverageForm(cents: int, count: nat) returns (j: nat)
    requires count > 0 && cents != 0 && -(AMOUNT_LIMIT * count) < cents < AMOUNT_LIMIT * count
    ensures j >= 2
    ensures Round(cents, 100 * count) == Decimal(RoundHalfEven(cents * Strings.Pow10(j), 100 * count), 0 - j)
  {
    var d, m := 100 * count, Signed(cents, cents);
    assert m < 1000000000000000000 * count;
    assert PREC * d == 1000000000000000000000000000000 * count;
    assert PREC_LOW * d == 100000000000000000000000000000 * count;
    j := RoundForm(cents, d);
    assert Strings.Pow10(0) == 1 && Strings.Pow10(1) == 10;
    assert m * 1 == m && m * 10 == 10 * m;
  }

  lemma ShiftOrder(k: int, count: nat, cents: int, p: nat)
    ensures k * count <= cents ==> (k * p) * (100 * count) <= cents * (100 * p)
    ensures cents <= k * count ==> cents * (100 * p) <= (k * p) * (100 * count)
  {
    assert (k * p) * (100 * count) == (k * count) * (100 * p);
    if k * count <= cents {
      assert (cents - k * count) * (100 * p) >= 0;
    }
    if cents <= k * count {
      assert (k * count - cents) * (100 * p) >= 0;
    }
  }

  // ---- Storing in a Numeric(20, 4) column ----

  /** The integer nearest to `n / d`; ties go away from zero. */
  function RoundHalfAway(n: int, d: int): int
    requires d > 0
  {
    if n >= 0 then (2 * n + d) / (2 * d) else -((2 * -n + d) / (2 * d))
  }

  /** `c` is an integer nearest to `n / d`, of two equally near the one farther from zero. */
  predicate NearestAway(n: int, d: int, c: int) {
    -d <= 2 * (c * d - n) <= d && (2 * (c * d - n) == d ==> n > 0) && (2 * (c * d - n) == -d ==> n < 0)
  }

  lemma RoundHalfAwayIsNearest(n: int, d: int)
    requires d > 0
    ensures NearestAway(n, d, RoundHalfAway(n, d))
  {
    var m := if n >= 0 then n else -n;
    var q, r := (2 * m + d) / (2 * d), (2 * m + d) % (2 * d);
    assert 2 * m + d == q * (2 * d) + r;
    assert (-q) * d == -(q * d);
  }

  /** It is the only such integer. */
  lemma RoundHalfAwayIff(n: int, d: int, c: int)
    requires d > 0
    ensures NearestAway(n, d, c) <==> c == RoundHalfAway(n, d)
  {
    RoundHalfAwayIsNearest(n, d);
    var k := RoundHalfAway(n, d);
    if NearestAway(n, d, c) {
      if c < k { MultiplesApart(c, k, d); }
      if k < c { MultiplesApart(k, c, d); }
    }
  }

  lemma NearestKeepsOrder(n: int, d: int, c: int, k: int)
    requires d > 0 && -d <= 2 * (c * d - n) <= d
    ensures k * d <= n ==> k <= c
    ensures n <= k * d ==> c <= k
  {
    if k * d <= n && c < k {
      MultiplesApart(c, k, d);
    }
    if n <= k * d && k < c {
      MultiplesApart(k, c, d);
    }
  }

  /** What the column holds, in ten-thousandths. */
  function Stored(x: Decimal): int {
    RoundHalfAway(Num(x) * 10000, Den(x))
  }

  /** PostgreSQL rejects a value whose rounded form needs more than 16 integer digits. */
  predicate FitsColumn(x: Decimal) {
    -STORED_LIMIT < Stored(x) < STORED_LIMIT
  }

  /** Storing moves a value by at most half a ten-thousandth: 0.00005. */
  lemma StoredIsClose(x: Decimal)
    ensures 0 - Den(x) <= 2 * (Stored(x) * Den(x) - Num(x) * 10000) <= Den(x)
  {
    RoundHalfAwayIsNearest(Num(x) * 10000, Den(x));
  }

  lemma Hundredfold(n: int, d: int, k: int)
    ensures n * 100 <= k * d ==> n * 10000 <= (100 * k) * d
    ensures k * d <= n * 100 ==> (100 * k) * d <= n * 10000
  {
    assert (100 * k) * d == 100 * (k * d);
  }

  /** Storing never crosses a two-decimal number, so it preserves minimum <= average <= maximum. */
  lemma StoredKeepsOrder(x: Decimal, k: int)
    ensures Le(Cents(k), x) ==> 100 * k <= Stored(x)
    ensures Le(x, Cents(k)) ==> Stored(x) <= 100 * k
  {
    CentsForm(k);
    Hundredfold(Num(x), Den(x), k);
    StoredIsClose(x);
    NearestKeepsOrder(Num(x) * 10000, Den(x), Stored(x), 100 * k);
  }

  /** A two-decimal number is stored exactly, and fits exactly when it is below 10^16. */
  lemma StoredCents(x: Decimal, cents: int)
    requires Equals(x, cents, 100)
    ensures Stored(x) == 100 * cents
    ensures FitsColumn(x) <==> InColumn(cents)
  {
    CentsForm(cents);
    assert Le(Cents(cents), x) && Le(x, Cents(cents));
    StoredKeepsOrder(x, cents);
  }

  /**
   minimum <= average <= maximum holds of the rounded average, and still holds after all three
   are stored.
   */
  lemma AverageIsBetween(cents: int, count: nat, lo: int, hi: int)
    requires count > 0 && lo * count <= cents <= hi * count && InColumn(lo) && InColumn(hi)
    ensures var a := Round(cents, 100 * count);
            && Le(Cents(lo), a) && Le(a, Cents(hi))
            && Stored(Cents(lo)) <= Stored(a) <= Stored(Cents(hi))
  {
    hide Round, Stored;
    var a := Round(cents, 100 * count);
    SumInRange(cents, count, lo, hi);
    AverageKeepsOrder(cents, count, lo);
    AverageKeepsOrder(cents, count, hi);
    StoredBetween(a, lo, hi);
  }

  lemma SumInRange(cents: int, count: nat, lo: int, hi: int)
    requires count > 0 && lo * count <= cents <= hi * count && InColumn(lo) && InColumn(hi)
    ensures -(AMOUNT_LIMIT * count) < cents < AMOUNT_LIMIT * count
  {
    TimesKeepsLess(-AMOUNT_LIMIT, lo, count);
    TimesKeepsLess(hi, AMOUNT_LIMIT, count);
    assert (-AMOUNT_LIMIT) * count == -(AMOUNT_LIMIT * count);
  }

  lemma TimesKeepsLess(a: int, b: int, c: int)
    requires a < b && c > 0
    ensures a * c < b * c
  {
    assert (b - a) * c > 0;
  }

  lemma StoredBetween(a: Decimal, lo: int, hi: int)
    requires Le(Cents(lo), a) && Le(a, Cents(hi))
    ensures Stored(Cents(lo)) <= Stored(a) <= Stored(Cents(hi))
  {
    StoredKeepsOrder(a, lo);
    StoredKeepsOrder(a, hi);
    CentsEqual(lo);
    CentsEqual(hi);
  }

  lemma CentsEqual(n: int)
    ensures Equals(Cents(n), n, 100)
    ensures Stored(Cents(n)) == 100 * n
    ensures FitsColumn(Cents(n)) <==> InColumn(n)
  {
    CentsForm(n);
    StoredCents(Cents(n), n);
  }
}
