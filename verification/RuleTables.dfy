/**
 What the engine does under v1, said in words and amounts: a hint read up to case and outer
 spaces, one table of categories and rule ids, and the violations of each transaction in order.
 */
module RuleTables {
  import opened Base
  import opened Rules
  import opened Strings
  import opened Transactions
  import Calendar

  // ---- Reading a hint ----

  /** The character counts as this small letter or mark: itself, its capital, or the Kelvin sign for k. */
  predicate CountsAs(c: char, small: char) {
    c == small || ('A' <= c <= 'Z' && c as int + 32 == small as int) || (c == '\U{212A}' && small == 'k')
  }

  predicate SpelledAs(core: string, word: string) {
    |core| == |word| && forall i :: 0 <= i < |word| ==> CountsAs(core[i], word[i])
  }

  /** The hint is the word, in any case, with spaces around it. */
  ghost predicate Reads(hint: string, word: string) {
    exists before, core, after ::
      hint == before + core + after && AllSpace(before) && AllSpace(after) && SpelledAs(core, word)
  }

  /** A word of small letters and underscores. */
  predicate IsWord(word: string) {
    word != "" && forall i :: 0 <= i < |word| ==> 'a' <= word[i] <= 'z' || word[i] == '_'
  }

  lemma {:induction false} StripLeftOf(before: string, s: string)
    requires AllSpace(before) && (s != "" ==> !IsSpace(s[0]))
    ensures StripLeft(before + s) == s
  {
    hide IsSpace;
    if before == "" {
      assert before + s == s;
    } else {
      assert (before + s)[1..] == before[1..] + s;
      StripLeftOf(before[1..], s);
    }
  }

  lemma {:induction false} StripRightOf(s: string, after: string)
    requires AllSpace(after) && (s != "" ==> !IsSpace(s[|s| - 1]))
    ensures StripRight(s + after) == s
  {
    hide IsSpace;
    if after == "" {
      assert s + after == s;
    } else {
      var n := |after| - 1;
      assert (s + after)[..|s| + n] == s + after[..n];
      StripRightOf(s, after[..n]);
    }
  }

  /** Stripping finds what stands between spaces. */
  lemma StripOf(before: string, core: string, after: string)
    requires AllSpace(before) && AllSpace(after) && core != "" && !IsSpace(core[0]) && !IsSpace(core[|core| - 1])
    ensures Strip(before + core + after) == core
  {
    hide IsSpace, StripLeft, StripRight;
    assert before + core + after == before + (core + after);
    StripLeftOf(before, core + after);
    StripRightOf(core, after);
  }

  lemma CountsAsLower(c: char, small: char)
    requires 'a' <= small <= 'z' || small == '_'
    ensures CountsAs(c, small) <==> LowerChar(c) == small
    ensures CountsAs(c, small) ==> !IsSpace(c)
  {
  }

  lemma SpelledAsLower(core: string, word: string)
    requires IsWord(word)
    ensures SpelledAs(core, word) <==> Lower(core) == word
    ensures SpelledAs(core, word) ==> core != "" && !IsSpace(core[0]) && !IsSpace(core[|core| - 1])
  {
    hide CountsAs, LowerChar, IsSpace;
    LowerMeaning(core);
    if |core| == |word| {
      forall i | 0 <= i < |core|
        ensures CountsAs(core[i], word[i]) <==> LowerChar(core[i]) == word[i]
        ensures CountsAs(core[i], word[i]) ==> !IsSpace(core[i])
      {
        CountsAsLower(core[i], word[i]);
      }
    }
  }

  /** Stripping and lower-casing finds exactly the hints that read as the word. */
  lemma NormalizedReads(hint: string, word: string)
    requires IsWord(word)
    ensures Lower(Strip(hint)) == word <==> Reads(hint, word)
  {
    hide Lower, Strip, SpelledAs, IsWord, IsSpace;
    var before, after := StripMeaning(hint);
    SpelledAsLower(Strip(hint), word);
    if Reads(hint, word) {
      var p, core, q :| hint == p + core + q && AllSpace(p) && AllSpace(q) && SpelledAs(core, word);
      SpelledAsLower(core, word);
      StripOf(p, core, q);
    }
  }

  ghost predicate HintReads(t: Transaction, word: string) {
    t.hint.Some? && Reads(t.hint.value, word)
  }

  lemma HintIsReads(t: Transaction, word: string)
    requires IsWord(word)
    ensures HintIs(t, word) <==> HintReads(t, word)
  {
    hide Lower, Strip, Reads;
    if t.hint.Some? { NormalizedReads(t.hint.value, word); }
  }

  // ---- The table of categories ----

  datatype Decision = Decision(category: Category, ruleId: string)

  /** The words of a hint and the amount in cents decide, in this order. */
  ghost function DecisionV1(t: Transaction): Decision {
    if HintReads(t, "suspicious") || HintReads(t, "flagged") then Decision(Suspicious, "classify.suspicious_hint")
    else if HintReads(t, "internal") || HintReads(t, "internal_transfer") then
      Decision(InternalTransfer, "classify.internal_transfer")
    else if HintReads(t, "fee") || HintReads(t, "service_fee") then Decision(Fee, "classify.fee")
    else if HintReads(t, "refund") || HintReads(t, "chargeback") || t.cents < 0 then Decision(Refund, "classify.refund")
    else if t.cents >= 10_000_00 then Decision(HighValue, "classify.high_value_threshold")
    else if HintReads(t, "wire") || HintReads(t, "wire_transfer") || HintReads(t, "swift") then
      Decision(WireTransfer, "classify.wire_transfer")
    else Decision(RetailPayment, "classify.retail_payment_fallback")
  }

  lemma HintWords(t: Transaction)
    ensures SaysSuspicious(t) <==> HintReads(t, "suspicious") || HintReads(t, "flagged")
    ensures SaysInternal(t) <==> HintReads(t, "internal") || HintReads(t, "internal_transfer")
    ensures SaysFee(t) <==> HintReads(t, "fee") || HintReads(t, "service_fee")
    ensures SaysRefund(t) <==> HintReads(t, "refund") || HintReads(t, "chargeback")
    ensures SaysWire(t) <==> HintReads(t, "wire") || HintReads(t, "wire_transfer") || HintReads(t, "swift")
  {
    hide HintIs, HintReads;
    HintIsReads(t, "suspicious");
    HintIsReads(t, "flagged");
    HintIsReads(t, "internal");
    HintIsReads(t, "internal_transfer");
    HintIsReads(t, "fee");
    HintIsReads(t, "service_fee");
    HintIsReads(t, "refund");
    HintIsReads(t, "chargeback");
    HintIsReads(t, "wire");
    HintIsReads(t, "wire_transfer");
    HintIsReads(t, "swift");
  }

  /** The rule of v1 that decides, found by the table. */
  lemma DecidedV1(t: Transaction)
    ensures FirstMatch(RULE_SET_V1.classification, t).Some?
    ensures var rule := FirstMatch(RULE_SET_V1.classification, t).value;
            DecisionV1(t) == Decision(rule.Target(), rule.Id())
    ensures CategoryV1(t) == DecisionV1(t).category
  {
    hide HintReads, SaysSuspicious, SaysInternal, SaysFee, SaysRefund, SaysWire, FirstMatch;
    HintWords(t);
    V1IsTable(t);
  }

  // ---- The violations ----

  /** Three capital letters, and a line break at most behind them. */
  ghost predicate LooksLikeCurrency(s: string) {
    exists a, b, c: char ::
      'A' <= a <= 'Z' && 'A' <= b <= 'Z' && 'A' <= c <= 'Z' && (s == [a, b, c] || s == [a, b, c, '\n'])
  }

  lemma CurrencyShape(s: string)
    ensures MatchesIsoCurrency(s) <==> LooksLikeCurrency(s)
  {
    if MatchesIsoCurrency(s) {
      assert s == [s[0], s[1], s[2]] || s == [s[0], s[1], s[2], '\n'];
    }
  }

  lemma BlankIffAllSpace(s: string)
    ensures Strip(s) == "" <==> AllSpace(s)
  {
    hide IsSpace, Strip;
    var before, after := StripMeaning(s);
    if AllSpace(s) {
      InsideIsSpace(before, Strip(s), after);
    }
  }

  lemma InsideIsSpace(before: string, core: string, after: string)
    requires AllSpace(before + core + after)
    ensures AllSpace(core)
  {
    hide IsSpace;
    forall i | 0 <= i < |core|
      ensures IsSpace(core[i])
    {
      assert (before + core + after)[|before| + i] == core[i];
    }
  }

  /** The violations of one transaction under v1, in the order they are reported. */
  ghost function FaultsV1(t: Transaction, now: int): seq<Violation> {
    (if !LooksLikeCurrency(t.currency) then [Violation("validate.currency_format", Critical, t.externalId)] else [])
    + (if DecisionV1(t).category != Refund && t.cents <= 0
       then [Violation("validate.non_refund_positive_amount", Warning, t.externalId)] else [])
    + (if t.cents >= 10_000_00 && AllSpace(t.counterparty)
       then [Violation("validate.high_value_requires_counterparty", Critical, t.externalId)] else [])
    + (if Calendar.Instant(t.timestamp) > now
       then [Violation("validate.no_future_dated_transaction", Warning, t.externalId)] else [])
  }

  lemma FourRules(t: Transaction, c: Category, now: int)
    ensures Violations(RULE_SET_V1.validation, t, c, now) ==
      CurrencyFormat.Check(t, c, now) + PositiveAmount.Check(t, c, now) + HighValueCounterparty.Check(t, c, now)
      + NotFutureDated.Check(t, c, now)
  {
    var rs := RULE_SET_V1.validation;
    var a, b, d, e := rs[0].Check(t, c, now), rs[1].Check(t, c, now), rs[2].Check(t, c, now), rs[3].Check(t, c, now);
    assert rs[1..][1..] == rs[2..] && rs[2..][1..] == rs[3..] && rs[3..][1..] == [];
    assert Violations(rs[3..], t, c, now) == e + [] == e;
    assert Violations(rs[2..], t, c, now) == d + e;
    assert Violations(rs[1..], t, c, now) == b + (d + e);
    assert a + (b + (d + e)) == a + b + d + e;
  }

  lemma FaultsAreViolations(t: Transaction, now: int)
    ensures Violations(RULE_SET_V1.validation, t, DecisionV1(t).category, now) == FaultsV1(t, now)
  {
    hide DecisionV1, LooksLikeCurrency, MatchesIsoCurrency, Violations, Strip, Calendar.Instant;
    FourRules(t, DecisionV1(t).category, now);
    CurrencyShape(t.currency);
    BlankIffAllSpace(t.counterparty);
  }

  // ---- The whole run ----

  ghost function Decided(t: Transaction): Classified {
    Classified(t, DecisionV1(t).category, DecisionV1(t).ruleId)
  }

  /** All transactions by the table, in order. */
  ghost function AllDecided(ts: seq<Transaction>): (r: seq<Classified>)
    ensures |r| == |ts| && forall i :: 0 <= i < |ts| ==> r[i] == Decided(ts[i])
  {
    if ts == [] then [] else [Decided(ts[0])] + AllDecided(ts[1..])
  }

  ghost function AllFaults(ts: seq<Transaction>, nows: seq<int>): seq<Violation>
    requires |nows| == |ts|
  {
    if ts == [] then [] else FaultsV1(ts[0], nows[0]) + AllFaults(ts[1..], nows[1..])
  }

  /** Under v1 the engine never fails and yields what the two tables say. */
  lemma {:induction false} RunUnderV1(ts: seq<Transaction>, nows: seq<int>)
    requires |nows| == |ts|
    ensures Run(RULE_SET_V1, ts, nows) == Ok(EngineResult(AllDecided(ts), AllFaults(ts, nows)))
  {
    hide DecisionV1, FaultsV1, FirstMatch, Violations, RULE_SET_V1, CategoryV1;
    if ts != [] {
      RunUnderV1(ts[1..], nows[1..]);
      DecidedV1(ts[0]);
      FaultsAreViolations(ts[0], nows[0]);
    }
  }

  const IDS_V1 := [
    "classify.suspicious_hint", "classify.internal_transfer", "classify.fee", "classify.refund",
    "classify.high_value_threshold", "classify.wire_transfer", "classify.retail_payment_fallback",
    "validate.currency_format", "validate.non_refund_positive_amount", "validate.high_value_requires_counterparty",
    "validate.no_future_dated_transaction"]

  /** The text of v1's definition joins these ids. */
  lemma DefinitionOfV1()
    ensures RuleSetText(RULE_SET_V1) == Join('|', IDS_V1)
  {
    hide Join;
    var rs, qs := RULE_SET_V1.classification, RULE_SET_V1.validation;
    ClassificationIdsGood(rs);
    ValidationIdsGood(qs);
    var c, v := ClassificationIds(rs), ValidationIds(qs);
    forall i | 0 <= i < 11
      ensures (c + v)[i] == IDS_V1[i]
    {
      if i < 7 {
        assert (c + v)[i] == rs[i].Id();
      } else {
        assert (c + v)[i] == qs[i - 7].Id();
      }
    }
    assert c + v == IDS_V1;
  }

  // ---- Case and spaces ----

  /** The same letters but for ASCII case. */
  predicate SameButCase(a: string, b: string) {
    |a| == |b| && forall i :: 0 <= i < |a| ==>
      a[i] == b[i] || ('A' <= a[i] <= 'Z' && a[i] as int + 32 == b[i] as int)
      || ('A' <= b[i] <= 'Z' && b[i] as int + 32 == a[i] as int)
  }

  lemma CaseKeepsSpelling(a: string, b: string, word: string)
    requires SameButCase(a, b) && IsWord(word)
    ensures SpelledAs(a, word) <==> SpelledAs(b, word)
  {
  }

  /** A core without outer spaces is read as itself. */
  lemma ReadsCore(before: string, core: string, after: string, word: string)
    requires AllSpace(before) && AllSpace(after) && IsWord(word)
    requires core != "" ==> !IsSpace(core[0]) && !IsSpace(core[|core| - 1])
    ensures Reads(before + core + after, word) <==> SpelledAs(core, word)
  {
    hide IsSpace, SpelledAs, IsWord;
    var hint := before + core + after;
    if Reads(hint, word) {
      NormalizedReads(hint, word);
      if core == "" {
        BlankIffAllSpace(hint);
        assert AllSpace(hint);
        SpelledAsLower("", word);
      } else {
        StripOf(before, core, after);
        SpelledAsLower(core, word);
      }
    }
  }

  /** Hints that differ only in case and outer spaces are read alike. */
  lemma CaseAndSpacesReadAlike(t: Transaction, p: string, a: string, q: string, u: string, b: string, v: string, word: string)
    requires AllSpace(p) && AllSpace(q) && AllSpace(u) && AllSpace(v) && SameButCase(a, b) && IsWord(word)
    requires a != "" ==> !IsSpace(a[0]) && !IsSpace(a[|a| - 1])
    ensures HintReads(t.(hint := Some(p + a + q)), word) <==> HintReads(t.(hint := Some(u + b + v)), word)
  {
    hide SpelledAs, IsWord, Reads;
    CaseKeepsSpelling(a, b, word);
    ReadsCore(p, a, q, word);
    if b != "" {
      LetterIsNoSpace(a[0], b[0]);
      LetterIsNoSpace(a[|a| - 1], b[|b| - 1]);
    }
    ReadsCore(u, b, v, word);
  }

  lemma LetterIsNoSpace(a: char, b: char)
    requires !IsSpace(a)
    requires a == b || ('A' <= a <= 'Z' && a as int + 32 == b as int) || ('A' <= b <= 'Z' && b as int + 32 == a as int)
    ensures !IsSpace(b)
  {
  }

  /** Case and outer spaces of the hint change no classification. */
  lemma CaseAndSpacesDoNotMatter(t: Transaction, p: string, a: string, q: string, u: string, b: string, v: string)
    requires AllSpace(p) && AllSpace(q) && AllSpace(u) && AllSpace(v) && SameButCase(a, b)
    requires a != "" ==> !IsSpace(a[0]) && !IsSpace(a[|a| - 1])
    ensures var x, y := t.(hint := Some(p + a + q)), t.(hint := Some(u + b + v));
            && CategoryV1(x) == CategoryV1(y)
            && FirstMatch(RULE_SET_V1.classification, x) == FirstMatch(RULE_SET_V1.classification, y)
  {
    hide HintReads, IsSpace, CategoryV1, FirstMatch, RULE_SET_V1;
    var x, y := t.(hint := Some(p + a + q)), t.(hint := Some(u + b + v));
    forall word | IsWord(word)
      ensures HintReads(x, word) <==> HintReads(y, word)
    {
      CaseAndSpacesReadAlike(t, p, a, q, u, b, v, word);
    }
    SameWordsSameDecision(x, y);
    DecidedV1(x);
    DecidedV1(y);
    TargetInjective(FirstMatch(RULE_SET_V1.classification, x).value, FirstMatch(RULE_SET_V1.classification, y).value);
  }

  lemma SameWordsSameDecision(x: Transaction, y: Transaction)
    requires x.cents == y.cents && forall word :: IsWord(word) ==> (HintReads(x, word) <==> HintReads(y, word))
    ensures DecisionV1(x) == DecisionV1(y)
  {
    hide HintReads;
    assert IsWord("suspicious") && IsWord("flagged") && IsWord("internal") && IsWord("internal_transfer");
    assert IsWord("fee") && IsWord("service_fee") && IsWord("refund") && IsWord("chargeback");
    assert IsWord("wire") && IsWord("wire_transfer") && IsWord("swift");
  }
}
