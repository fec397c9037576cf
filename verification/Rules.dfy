/**
 The rule engine and rule set v1: first-match classification, validation against the assigned
 category, and the text a rule set's definition hash is computed from.
 */
module Rules {
  import opened Base
  import opened Transactions
  import Calendar
  import Strings

  const HIGH_VALUE_THRESHOLD: int := 1000000 // cents

  function NormalizedHint(t: Transaction): Option<string> {
    match t.hint
    case Some(h) => Some(Strings.Lower(Strings.Strip(h)))
    case None => None
  }

  predicate HintIs(t: Transaction, word: string) {
    NormalizedHint(t) == Some(word)
  }

  predicate SaysSuspicious(t: Transaction) { HintIs(t, "suspicious") || HintIs(t, "flagged") }

  predicate SaysInternal(t: Transaction) { HintIs(t, "internal") || HintIs(t, "internal_transfer") }

  predicate SaysFee(t: Transaction) { HintIs(t, "fee") || HintIs(t, "service_fee") }

  predicate SaysRefund(t: Transaction) { HintIs(t, "refund") || HintIs(t, "chargeback") }

  predicate SaysWire(t: Transaction) { HintIs(t, "wire") || HintIs(t, "wire_transfer") || HintIs(t, "swift") }

  datatype ClassificationRule =
    | SuspiciousHint | InternalHint | FeeHint | RefundRule | HighValueRule | WireHint | RetailFallback
  {
    function Id(): string {
      match this
      case SuspiciousHint => "classify.suspicious_hint"
      case InternalHint => "classify.internal_transfer"
      case FeeHint => "classify.fee"
      case RefundRule => "classify.refund"
      case HighValueRule => "classify.high_value_threshold"
      case WireHint => "classify.wire_transfer"
      case RetailFallback => "classify.retail_payment_fallback"
    }

    /** The category this rule assigns when it matches. */
    function Target(): Category {
      match this
      case SuspiciousHint => Suspicious
      case InternalHint => InternalTransfer
      case FeeHint => Fee
      case RefundRule => Refund
      case HighValueRule => HighValue
      case WireHint => WireTransfer
      case RetailFallback => RetailPayment
    }

    predicate Matches(t: Transaction) {
      match this
      case SuspiciousHint => SaysSuspicious(t)
      case InternalHint => SaysInternal(t)
      case FeeHint => SaysFee(t)
      case RefundRule => SaysRefund(t) || t.cents < 0
      case HighValueRule => t.cents >= HIGH_VALUE_THRESHOLD
      case WireHint => SaysWire(t)
      case RetailFallback => true
    }
  }

  /** `^[A-Z]{3}$` as Python matches it: `$` also accepts one trailing newline. */
  predicate MatchesIsoCurrency(s: string) {
    (|s| == 3 || (|s| == 4 && s[3] == '\n')) && 'A' <= s[0] <= 'Z' && 'A' <= s[1] <= 'Z' && 'A' <= s[2] <= 'Z'
  }

  datatype ValidationRule = CurrencyFormat | PositiveAmount | HighValueCounterparty | NotFutureDated {
    function Id(): string {
      match this
      case CurrencyFormat => "validate.currency_format"
      case PositiveAmount => "validate.non_refund_positive_amount"
      case HighValueCounterparty => "validate.high_value_requires_counterparty"
      case NotFutureDated => "validate.no_future_dated_transaction"
    }

    function Severity(): Severity {
      if CurrencyFormat? || HighValueCounterparty? then Critical else Warning
    }

    /** `now` is the clock reading taken for this transaction, an instant. */
    predicate Breached(t: Transaction, c: Category, now: int) {
      match this
      case CurrencyFormat => !MatchesIsoCurrency(t.currency)
      case PositiveAmount => c != Refund && t.cents <= 0
      case HighValueCounterparty => t.cents >= HIGH_VALUE_THRESHOLD && Strings.Strip(t.counterparty) == ""
      case NotFutureDated => Calendar.Instant(t.timestamp) > now
    }

    function Check(t: Transaction, c: Category, now: int): seq<Violation> {
      if Breached(t, c, now) then [Violation(Id(), Severity(), t.externalId)] else []
    }
  }

  datatype RuleSet = RuleSet(
    version: string, classification: seq<ClassificationRule>, validation: seq<ValidationRule>)

  const RULE_SET_V1 := RuleSet(
    "v1",
    [SuspiciousHint, InternalHint, FeeHint, RefundRule, HighValueRule, WireHint, RetailFallback],
    [CurrencyFormat, PositiveAmount, HighValueCounterparty, NotFutureDated])

  /** `get_rule_set`: v1 is the only registered version. */
  function GetRuleSet(version: string): Option<RuleSet> {
    if version == RULE_SET_V1.version then Some(RULE_SET_V1) else None
  }

  // ---- The engine ----

  /** The first rule that matches, if any does. */
  function FirstMatch(rules: seq<ClassificationRule>, t: Transaction): Option<ClassificationRule> {
    if rules == [] then None
    else if rules[0].Matches(t) then Some(rules[0])
    else FirstMatch(rules[1..], t)
  }

  function Violations(rules: seq<ValidationRule>, t: Transaction, c: Category, now: int): seq<Violation> {
    if rules == [] then [] else rules[0].Check(t, c, now) + Violations(rules[1..], t, c, now)
  }

  datatype EngineResult = EngineResult(classified: seq<Classified>, violations: seq<Violation>)

  /** The external id of the transaction no rule matched. */
  datatype NoRuleMatched = NoRuleMatched(externalId: string)

  /** What `run` yields; `nows` holds the clock reading taken for each transaction. */
  function Run(rules: RuleSet, ts: seq<Transaction>, nows: seq<int>): Result<EngineResult, NoRuleMatched>
    requires |nows| == |ts|
  {
    if ts == [] then Ok(EngineResult([], []))
    else
      match FirstMatch(rules.classification, ts[0])
      case None => Err(NoRuleMatched(ts[0].externalId))
      case Some(rule) =>
        match Run(rules, ts[1..], nows[1..])
        case Err(e) => Err(e)
        case Ok(r) => Ok(EngineResult(
                           [Classified(ts[0], rule.Target(), rule.Id())] + r.classified,
                           Violations(rules.validation, ts[0], rule.Target(), nows[0]) + r.violations))
  }

  /** First match, said without recursion: some rule matches and none before it does. */
  lemma {:induction false} FirstMatchMeaning(rules: seq<ClassificationRule>, t: Transaction, r: ClassificationRule)
    ensures FirstMatch(rules, t) == Some(r)
            <==> exists k :: 0 <= k < |rules| && rules[k] == r && r.Matches(t)
                             && forall j :: 0 <= j < k ==> !rules[j].Matches(t)
  {
    if rules != [] && !rules[0].Matches(t) {
      FirstMatchMeaning(rules[1..], t, r);
      if FirstMatch(rules, t) == Some(r) {
        var k :| 0 <= k < |rules| - 1 && rules[1..][k] == r && r.Matches(t)
                 && forall j :: 0 <= j < k ==> !rules[1..][j].Matches(t);
        assert forall j :: 0 < j < k + 1 ==> rules[j] == rules[1..][j - 1];
        assert rules[k + 1] == r;
      }
      if k :| 0 <= k < |rules| && rules[k] == r && r.Matches(t) && forall j :: 0 <= j < k ==> !rules[j].Matches(t) {
        assert rules[1..][k - 1] == r;
      }
    }
  }

  lemma {:induction false} FirstMatchConcat(a: seq<ClassificationRule>, b: seq<ClassificationRule>, t: Transaction)
    ensures FirstMatch(a + b, t) == if FirstMatch(a, t).Some? then FirstMatch(a, t) else FirstMatch(b, t)
  {
    if a == [] {
      assert a + b == b;
    } else {
      assert (a + b)[1..] == a[1..] + b;
      FirstMatchConcat(a[1..], b, t);
    }
  }

  /** The loop of `_classify`. */
  method ClassifyFirst(rules: seq<ClassificationRule>, t: Transaction) returns (r: Option<ClassificationRule>)
    ensures r == FirstMatch(rules, t)
  {
    for i := 0 to |rules|
      invariant FirstMatch(rules[..i], t) == None
    {
      assert rules == rules[..i] + rules[i..];
      FirstMatchConcat(rules[..i], rules[i..], t);
      if rules[i].Matches(t) {
        return Some(rules[i]);
      }
      assert rules[..i + 1] == rules[..i] + [rules[i]];
      FirstMatchConcat(rules[..i], [rules[i]], t);
    }
    assert rules[..|rules|] == rules;
    return None;
  }

  lemma {:induction false} ViolationsConcat(
    a: seq<ValidationRule>, b: seq<ValidationRule>, t: Transaction, c: Category, now: int)
    ensures Violations(a + b, t, c, now) == Violations(a, t, c, now) + Violations(b, t, c, now)
  {
    if a == [] {
      assert a + b == b;
    } else {
      assert (a + b)[1..] == a[1..] + b;
      ViolationsConcat(a[1..], b, t, c, now);
    }
  }

  /** The loop of `_validate`. */
  method Validate(rules: seq<ValidationRule>, t: Transaction, c: Category, now: int) returns (vs: seq<Violation>)
    ensures vs == Violations(rules, t, c, now)
  {
    vs := [];
    for i := 0 to |rules|
      invariant vs == Violations(rules[..i], t, c, now)
    {
      vs := vs + rules[i].Check(t, c, now);
      assert rules[..i + 1] == rules[..i] + [rules[i]];
      ViolationsConcat(rules[..i], [rules[i]], t, c, now);
    }
    assert rules[..|rules|] == rules;
  }

  function Append(a: Result<EngineResult, NoRuleMatched>, b: Result<EngineResult, NoRuleMatched>)
    : Result<EngineResult, NoRuleMatched>
  {
    match (a, b)
    case (Ok(x), Ok(y)) => Ok(EngineResult(x.classified + y.classified, x.violations + y.violations))
    case (Err(e), _) => Err(e)
    case (_, Err(e)) => Err(e)
  }

  /** Running a concatenation appends the results; the first failure wins. */
  lemma {:induction false} RunConcat(
    rules: RuleSet, ts: seq<Transaction>, us: seq<Transaction>, ms: seq<int>, ns: seq<int>)
    requires |ms| == |ts| && |ns| == |us|
    ensures Run(rules, ts + us, ms + ns) == Append(Run(rules, ts, ms), Run(rules, us, ns))
  {
    hide FirstMatch, Violations;
    if ts == [] {
      assert ts + us == us && ms + ns == ns;
      if Run(rules, us, ns).Ok? {
        var r := Run(rules, us, ns).value;
        assert [] + r.classified == r.classified && [] + r.violations == r.violations;
      }
    } else {
      assert (ts + us)[1..] == ts[1..] + us && (ms + ns)[1..] == ms[1..] + ns;
      RunConcat(rules, ts[1..], us, ms[1..], ns);
      var f, rest, tail := FirstMatch(rules.classification, ts[0]), Run(rules, ts[1..], ms[1..]), Run(rules, us, ns);
      if f.Some? && rest.Ok? && tail.Ok? {
        var c, vs := [Classified(ts[0], f.value.Target(), f.value.Id())],
                     Violations(rules.validation, ts[0], f.value.Target(), ms[0]);
        assert c + (rest.value.classified + tail.value.classified) == c + rest.value.classified + tail.value.classified;
        assert vs + (rest.value.violations + tail.value.violations) == vs + rest.value.violations + tail.value.violations;
      }
    }
  }

  lemma RunOne(rules: RuleSet, t: Transaction, now: int)
    ensures Run(rules, [t], [now]) ==
      match FirstMatch(rules.classification, t)
      case None => Err(NoRuleMatched(t.externalId))
      case Some(r) => Ok(EngineResult([Classified(t, r.Target(), r.Id())],
                                      Violations(rules.validation, t, r.Target(), now)))
  {
    assert Run(rules, [t][1..], [now][1..]) == Ok(EngineResult([], []));
    var f := FirstMatch(rules.classification, t);
    if f.Some? {
      var c, vs := [Classified(t, f.value.Target(), f.value.Id())], Violations(rules.validation, t, f.value.Target(), now);
      assert c + [] == c && vs + [] == vs;
    }
  }

  /** How one more transaction changes the result of a prefix, and a failed prefix the whole. */
  lemma RunPrefix(rules: RuleSet, ts: seq<Transaction>, nows: seq<int>, i: nat)
    requires |nows| == |ts| && i < |ts|
    ensures Run(rules, ts[..i + 1], nows[..i + 1])
            == Append(Run(rules, ts[..i], nows[..i]), Run(rules, [ts[i]], [nows[i]]))
    ensures Run(rules, ts, nows)
            == Append(Run(rules, ts[..i + 1], nows[..i + 1]), Run(rules, ts[i + 1..], nows[i + 1..]))
    ensures Run(rules, [ts[i]], [nows[i]]) ==
      match FirstMatch(rules.classification, ts[i])
      case None => Err(NoRuleMatched(ts[i].externalId))
      case Some(r) => Ok(EngineResult([Classified(ts[i], r.Target(), r.Id())],
                                      Violations(rules.validation, ts[i], r.Target(), nows[i])))
  {
    RunOne(rules, ts[i], nows[i]);
    assert ts[..i + 1] == ts[..i] + [ts[i]] && nows[..i + 1] == nows[..i] + [nows[i]];
    RunConcat(rules, ts[..i], [ts[i]], nows[..i], [nows[i]]);
    assert Run(rules, ts, nows)
        == Append(Run(rules, ts[..i + 1], nows[..i + 1]), Run(rules, ts[i + 1..], nows[i + 1..])) by {
      assert ts == ts[..i + 1] + ts[i + 1..] && nows == nows[..i + 1] + nows[i + 1..];
      RunConcat(rules, ts[..i + 1], ts[i + 1..], nows[..i + 1], nows[i + 1..]);
    }
  }

  /** `RuleEngine.run`. */
  method RunEngine(rules: RuleSet, ts: seq<Transaction>, nows: seq<int>)
    returns (r: Result<EngineResult, NoRuleMatched>)
    requires |nows| == |ts|
    ensures r == Run(rules, ts, nows)
  {
    var classified, violations := [], [];
    for i := 0 to |ts|
      invariant Run(rules, ts[..i], nows[..i]) == Ok(EngineResult(classified, violations))
    {
      var rule := ClassifyFirst(rules.classification, ts[i]);
      RunPrefix(rules, ts, nows, i);
      if rule.None? {
        return Err(NoRuleMatched(ts[i].externalId));
      }
      classified := classified + [Classified(ts[i], rule.value.Target(), rule.value.Id())];
      var found := Validate(rules.validation, ts[i], rule.value.Target(), nows[i]);
      violations := violations + found;
    }
    assert ts[..|ts|] == ts && nows[..|ts|] == nows;
    return Ok(EngineResult(classified, violations));
  }

  /** `run` fails exactly when some transaction is matched by no rule. */
  lemma {:induction false} RunFailsIff(rules: RuleSet, ts: seq<Transaction>, nows: seq<int>)
    requires |nows| == |ts|
    ensures Run(rules, ts, nows).Err? <==> exists i :: 0 <= i < |ts| && FirstMatch(rules.classification, ts[i]).None?
    ensures Run(rules, ts, nows).Ok? ==>
              var r := Run(rules, ts, nows).value;
              && |r.classified| == |ts|
              && forall i :: 0 <= i < |ts| ==> r.classified[i].transaction == ts[i]
  {
    if ts != [] {
      RunFailsIff(rules, ts[1..], nows[1..]);
      assert forall i :: 0 < i < |ts| ==> ts[i] == ts[1..][i - 1];
      if FirstMatch(rules.classification, ts[0]).Some? && Run(rules, ts, nows).Err? {
        var i :| 0 <= i < |ts| - 1 && FirstMatch(rules.classification, ts[1..][i]).None?;
        assert FirstMatch(rules.classification, ts[i + 1]).None?;
      }
    }
  }

  /** Some rule of the list is breached, and this is its violation. */
  ghost predicate ReportedBy(rules: seq<ValidationRule>, t: Transaction, c: Category, now: int, v: Violation) {
    exists k :: 0 <= k < |rules| && rules[k].Breached(t, c, now)
                && v == Violation(rules[k].Id(), rules[k].Severity(), t.externalId)
  }

  lemma {:induction false} ViolationsMeaning(
    rules: seq<ValidationRule>, t: Transaction, c: Category, now: int, v: Violation)
    ensures v in Violations(rules, t, c, now) <==> ReportedBy(rules, t, c, now, v)
  {
    if rules != [] {
      ViolationsMeaning(rules[1..], t, c, now, v);
      if ReportedBy(rules[1..], t, c, now, v) {
        var k :| 0 <= k < |rules| - 1 && rules[1..][k].Breached(t, c, now)
                 && v == Violation(rules[1..][k].Id(), rules[1..][k].Severity(), t.externalId);
        assert rules[k + 1] == rules[1..][k];
      }
      if ReportedBy(rules, t, c, now, v) && v !in rules[0].Check(t, c, now) {
        var k :| 0 <= k < |rules| && rules[k].Breached(t, c, now)
                 && v == Violation(rules[k].Id(), rules[k].Severity(), t.externalId);
        assert rules[1..][k - 1] == rules[k];
      }
    }
  }

  ghost predicate BreachedAt(
    rules: RuleSet, ts: seq<Transaction>, nows: seq<int>, classified: seq<Classified>, i: nat, v: Violation)
    requires |nows| == |ts| == |classified|
  {
    i < |ts| && ReportedBy(rules.validation, ts[i], classified[i].category, nows[i], v)
  }

  /** A violation is reported exactly if some transaction, as classified, breaches the rule it names. */
  lemma {:induction false} RunViolationsMeaning(rules: RuleSet, ts: seq<Transaction>, nows: seq<int>, v: Violation)
    requires |nows| == |ts| && Run(rules, ts, nows).Ok?
    ensures var r := Run(rules, ts, nows).value;
            && |r.classified| == |ts|
            && (v in r.violations <==> exists i: nat :: BreachedAt(rules, ts, nows, r.classified, i, v))
  {
    hide FirstMatch, Violations, ReportedBy;
    if ts != [] {
      RunViolationsMeaning(rules, ts[1..], nows[1..], v);
      var r, rest := Run(rules, ts, nows).value, Run(rules, ts[1..], nows[1..]).value;
      var c := FirstMatch(rules.classification, ts[0]).value.Target();
      ViolationsMeaning(rules.validation, ts[0], c, nows[0], v);
      assert BreachedAt(rules, ts, nows, r.classified, 0, v) <==> v in Violations(rules.validation, ts[0], c, nows[0]);
      if i: nat :| BreachedAt(rules, ts[1..], nows[1..], rest.classified, i, v) {
        assert BreachedAt(rules, ts, nows, r.classified, i + 1, v);
      }
      if i: nat :| BreachedAt(rules, ts, nows, r.classified, i, v) {
        if i > 0 {
          assert BreachedAt(rules, ts[1..], nows[1..], rest.classified, i - 1, v);
        }
      }
    }
  }

  // ---- Rule set v1 ----

  /** The category v1 assigns, as one table over normalised hint and amount. */
  function CategoryV1(t: Transaction): Category {
    if SaysSuspicious(t) then Suspicious
    else if SaysInternal(t) then InternalTransfer
    else if SaysFee(t) then Fee
    else if SaysRefund(t) || t.cents < 0 then Refund
    else if t.cents >= HIGH_VALUE_THRESHOLD then HighValue
    else if SaysWire(t) then WireTransfer
    else RetailPayment
  }

  function CategoryUnder(rules: seq<ClassificationRule>, t: Transaction): Option<Category> {
    match FirstMatch(rules, t)
    case Some(r) => Some(r.Target())
    case None => None
  }

  /** The v1 loop always finds a match, and it is the one the table gives. */
  lemma V1IsTable(t: Transaction)
    ensures CategoryUnder(RULE_SET_V1.classification, t) == Some(CategoryV1(t))
    ensures CategoryV1(t) != Unclassified
  {
    var rs := RULE_SET_V1.classification;
    var k := if SaysSuspicious(t) then 0 else if SaysInternal(t) then 1 else if SaysFee(t) then 2
             else if SaysRefund(t) || t.cents < 0 then 3 else if t.cents >= HIGH_VALUE_THRESHOLD then 4
             else if SaysWire(t) then 5 else 6;
    assert rs[0] == SuspiciousHint && rs[1] == InternalHint && rs[2] == FeeHint && rs[3] == RefundRule;
    assert rs[4] == HighValueRule && rs[5] == WireHint && rs[6] == RetailFallback;
    FirstMatchAt(rs, t, k);
  }

  lemma {:induction false} FirstMatchAt(rules: seq<ClassificationRule>, t: Transaction, k: nat)
    requires k < |rules| && rules[k].Matches(t)
    requires forall j :: 0 <= j < k ==> !rules[j].Matches(t)
    ensures FirstMatch(rules, t) == Some(rules[k])
  {
    if k > 0 {
      FirstMatchAt(rules[1..], t, k - 1);
    }
  }

  lemma V1NeverFails(ts: seq<Transaction>, nows: seq<int>)
    requires |nows| == |ts|
    ensures Run(RULE_SET_V1, ts, nows).Ok?
    ensures var r := Run(RULE_SET_V1, ts, nows).value;
            && |r.classified| == |ts|
            && forall i :: 0 <= i < |ts| ==> r.classified[i].transaction == ts[i]
  {
    RunFailsIff(RULE_SET_V1, ts, nows);
    forall i | 0 <= i < |ts|
      ensures FirstMatch(RULE_SET_V1.classification, ts[i]).Some?
    {
      V1IsTable(ts[i]);
    }
  }

  /**
   When v1 reports a non-positive amount: at zero outside refunds, and below zero only where a
   hint was honoured before the sign was looked at.
   */
  lemma PositiveAmountUnderV1(t: Transaction, now: int)
    ensures PositiveAmount.Breached(t, CategoryV1(t), now) <==>
              || (t.cents == 0 && CategoryV1(t) != Refund)
              || (t.cents < 0 && CategoryV1(t) in [Suspicious, InternalTransfer, Fee])
    ensures CategoryV1(t) == HighValue ==> !PositiveAmount.Breached(t, HighValue, now)
    ensures CategoryV1(t) in [WireTransfer, RetailPayment]
            ==> (PositiveAmount.Breached(t, CategoryV1(t), now) <==> t.cents == 0)
  {
  }

  // ---- Which reorderings of v1 change a report ----

  ghost predicate SameCategories(a: seq<ClassificationRule>, b: seq<ClassificationRule>) {
    forall t :: CategoryUnder(a, t) == CategoryUnder(b, t)
  }

  lemma {:induction false} LoneMatch(rules: seq<ClassificationRule>, t: Transaction, r: ClassificationRule)
    requires r in rules && r.Matches(t)
    requires forall q :: q in rules && q.Matches(t) ==> q == r
    ensures FirstMatch(rules, t) == Some(r)
  {
    if rules[0] != r {
      assert rules[0] in rules;
      LoneMatch(rules[1..], t, r);
    }
  }

  lemma {:induction false} NoMatch(rules: seq<ClassificationRule>, t: Transaction)
    ensures FirstMatch(rules, t).None? <==> forall q :: q in rules ==> !q.Matches(t)
  {
    if rules != [] {
      NoMatch(rules[1..], t);
      assert rules == [rules[0]] + rules[1..];
    }
  }

  lemma HintsDisjoint(t: Transaction, p: ClassificationRule, q: ClassificationRule)
    requires p in [SuspiciousHint, InternalHint, FeeHint] && q in [SuspiciousHint, InternalHint, FeeHint]
    requires p.Matches(t) && q.Matches(t)
    ensures p == q
  {
    assert |"suspicious"| == 10 && |"flagged"| == 7 && |"internal"| == 8 && |"internal_transfer"| == 17;
    assert |"fee"| == 3 && |"service_fee"| == 11;
  }

  /** The three hint rules may stand in any order: no transaction matches two of them. */
  lemma HintOrderIsFree(a: seq<ClassificationRule>, b: seq<ClassificationRule>, t: Transaction)
    requires multiset(a) == multiset(b)
    requires forall q :: q in a ==> q in [SuspiciousHint, InternalHint, FeeHint]
    ensures FirstMatch(a, t) == FirstMatch(b, t)
  {
    PermutedLength(a, b);
    NoMatch(a, t);
    NoMatch(b, t);
    if FirstMatch(a, t).Some? {
      var r :| r in a && r.Matches(t);
      forall q | q in a && q.Matches(t)
        ensures q == r
      {
        HintsDisjoint(t, q, r);
      }
      LoneMatch(a, t, r);
      LoneMatch(b, t, r);
    }
  }

  /** Rule `b` stands before rule `a`, which v1 lists first, and `t` matches both. */
  lemma {:induction false} Shadowed(rules: seq<ClassificationRule>, i: nat, j: nat, t: Transaction)
    requires j < i < |rules| && rules[j].Matches(t)
    requires forall k :: 0 <= k < i ==> rules[k] != rules[i]
    ensures FirstMatch(rules, t).Some? && FirstMatch(rules, t).value != rules[i]
  {
    if !rules[0].Matches(t) {
      assert rules[1..][j - 1] == rules[j] && rules[1..][i - 1] == rules[i];
      assert forall k :: 0 <= k < i - 1 ==> rules[1..][k] == rules[k + 1];
      Shadowed(rules[1..], i - 1, j - 1, t);
    }
  }

  lemma TargetInjective(p: ClassificationRule, q: ClassificationRule)
    requires p.Target() == q.Target()
    ensures p == q
  {
  }

  /** An ordinary transaction with a plain lower-case hint. */
  function Sample(hint: string, cents: int): Transaction {
    Transaction("x", Calendar.Timestamp(Calendar.Date(2024, 1, 15), 0), cents, "USD", "c", Some(hint))
  }

  lemma PlainHint(hint: string, cents: int)
    requires hint != [] && forall i :: 0 <= i < |hint| ==> 'a' <= hint[i] <= 'z'
    ensures NormalizedHint(Sample(hint, cents)) == Some(hint)
  {
    PlainWord(hint);
  }

  lemma PlainWord(word: string)
    requires word != [] && forall i :: 0 <= i < |word| ==> 'a' <= word[i] <= 'z'
    ensures Strings.Lower(Strings.Strip(word)) == word
  {
    assert Strings.Strip(word) == word;
    Strings.LowerFixed(word);
  }

  /**
   If a transaction gets the category of one rule but also matches another, the first stands
   before the second.
   */
  lemma MustPrecede(rules: seq<ClassificationRule>, i: nat, j: nat, t: Transaction)
    requires multiset(rules) == multiset(RULE_SET_V1.classification)
    requires i < |rules| && j < |rules| && rules[i] != rules[j]
    requires CategoryUnder(rules, t) == Some(rules[i].Target()) && rules[j].Matches(t)
    ensures i < j
  {
    if j < i {
      OnceEach(rules, i);
      Shadowed(rules, i, j, t);
      TargetInjective(FirstMatch(rules, t).value, rules[i]);
    }
  }

  lemma CountedTwice<T>(xs: seq<T>, k: nat, i: nat)
    requires k < i < |xs| && xs[k] == xs[i]
    ensures multiset(xs)[xs[i]] >= 2
  {
    assert xs == xs[..i] + xs[i..];
    assert xs[k] in xs[..i] && xs[i] in xs[i..];
    assert xs[..i][k] == xs[k] && xs[i..][0] == xs[i];
    assert multiset(xs) == multiset(xs[..i]) + multiset(xs[i..]);
  }

  lemma OnceEach(rules: seq<ClassificationRule>, i: nat)
    requires multiset(rules) == multiset(RULE_SET_V1.classification) && i < |rules|
    ensures forall k :: 0 <= k < i ==> rules[k] != rules[i]
  {
    assert multiset(RULE_SET_V1.classification)[rules[i]] <= 1;
    forall k | 0 <= k < i
      ensures rules[k] != rules[i]
    {
      if rules[k] == rules[i] {
        CountedTwice(rules, k, i);
      }
    }
  }

  /** Where a reordering of v1 puts a rule. */
  lemma Position(rules: seq<ClassificationRule>, r: ClassificationRule) returns (i: nat)
    requires multiset(rules) == multiset(RULE_SET_V1.classification)
    ensures i < |rules| == 7 && rules[i] == r
  {
    assert |multiset(rules)| == 7;
    assert r in multiset(RULE_SET_V1.classification);
    i :| 0 <= i < |rules| && rules[i] == r;
  }

  /** What a reordering that keeps every category must keep: the order of two conflicting rules. */
  lemma OrderKept(rules: seq<ClassificationRule>, i: nat, j: nat, hint: string, cents: int)
    requires multiset(rules) == multiset(RULE_SET_V1.classification)
    requires SameCategories(rules, RULE_SET_V1.classification)
    requires i < |rules| && j < |rules| && rules[i] != rules[j]
    requires CategoryV1(Sample(hint, cents)) == rules[i].Target() && rules[j].Matches(Sample(hint, cents))
    ensures i < j
  {
    V1IsTable(Sample(hint, cents));
    assert CategoryUnder(rules, Sample(hint, cents))
        == CategoryUnder(RULE_SET_V1.classification, Sample(hint, cents));
    MustPrecede(rules, i, j, Sample(hint, cents));
  }

  lemma WordLengths()
    ensures |"suspicious"| == 10 && |"flagged"| == 7 && |"internal"| == 8 && |"internal_transfer"| == 17
    ensures |"fee"| == 3 && |"service_fee"| == 11 && |"refund"| == 6 && |"chargeback"| == 10 && |"wire"| == 4
  {
  }

  /** Refunds conflict with each of the three hint rules on negative amounts. */
  lemma NegativeHints(hint: string)
    requires hint in ["suspicious", "internal", "fee"]
    ensures CategoryV1(Sample(hint, -1)) ==
      if hint == "suspicious" then Suspicious else if hint == "internal" then InternalTransfer else Fee
    ensures RefundRule.Matches(Sample(hint, -1))
  {
    PlainHint(hint, -1);
    WordLengths();
  }

  /** Refund hints conflict with the threshold. */
  lemma LargeRefund()
    ensures CategoryV1(Sample("refund", HIGH_VALUE_THRESHOLD)) == Refund
    ensures HighValueRule.Matches(Sample("refund", HIGH_VALUE_THRESHOLD))
  {
    PlainHint("refund", HIGH_VALUE_THRESHOLD);
    WordLengths();
  }

  /** Wire hints conflict with the threshold, and with the fallback below it. */
  lemma Wires(cents: int)
    requires cents > 0
    ensures CategoryV1(Sample("wire", cents)) == if cents >= HIGH_VALUE_THRESHOLD then HighValue else WireTransfer
    ensures WireHint.Matches(Sample("wire", cents))
  {
    PlainHint("wire", cents);
    WordLengths();
  }

  /**
   A reordering of the v1 classification rules keeps every transaction's category exactly when
   it leaves the last four where they are.
   */
  lemma ReorderingKeepsCategoriesIff(rules: seq<ClassificationRule>)
    requires multiset(rules) == multiset(RULE_SET_V1.classification)
    ensures SameCategories(rules, RULE_SET_V1.classification) <==> |rules| == 7 && rules[3..] == V1_TAIL
  {
    assert RULE_SET_V1.classification == V1_HINTS + V1_TAIL;
    if SameCategories(rules, RULE_SET_V1.classification) {
      KeptOrder(rules);
    }
    if |rules| == 7 && rules[3..] == V1_TAIL {
      FreeOrder(rules, V1_HINTS, V1_TAIL);
    }
  }

  const V1_HINTS := [SuspiciousHint, InternalHint, FeeHint]
  const V1_TAIL := [RefundRule, HighValueRule, WireHint, RetailFallback]

  lemma RefundAfterHint(rules: seq<ClassificationRule>, i: nat, r: nat, hint: string)
    requires multiset(rules) == multiset(RULE_SET_V1.classification)
    requires SameCategories(rules, RULE_SET_V1.classification)
    requires i < |rules| && r < |rules| && rules[r] == RefundRule && hint in ["suspicious", "internal", "fee"]
    requires rules[i] ==
      if hint == "suspicious" then SuspiciousHint else if hint == "internal" then InternalHint else FeeHint
    ensures i < r
  {
    NegativeHints(hint);
    OrderKept(rules, i, r, hint, -1);
  }

  lemma TailOrder(rules: seq<ClassificationRule>, r: nat, h: nat, w: nat, b: nat)
    requires multiset(rules) == multiset(RULE_SET_V1.classification)
    requires SameCategories(rules, RULE_SET_V1.classification)
    requires r < |rules| && h < |rules| && w < |rules| && b < |rules|
    requires rules[r] == RefundRule && rules[h] == HighValueRule && rules[w] == WireHint && rules[b] == RetailFallback
    ensures r < h < w < b
  {
    LargeRefund();
    OrderKept(rules, r, h, "refund", HIGH_VALUE_THRESHOLD);
    Wires(HIGH_VALUE_THRESHOLD);
    OrderKept(rules, h, w, "wire", HIGH_VALUE_THRESHOLD);
    Wires(1);
    OrderKept(rules, w, b, "wire", 1);
  }

  lemma KeptOrder(rules: seq<ClassificationRule>)
    requires multiset(rules) == multiset(RULE_SET_V1.classification)
    requires SameCategories(rules, RULE_SET_V1.classification)
    ensures |rules| == 7 && rules[3..] == V1_TAIL
  {
    var s := Position(rules, SuspiciousHint);
    var i := Position(rules, InternalHint);
    var f := Position(rules, FeeHint);
    var r := Position(rules, RefundRule);
    var h := Position(rules, HighValueRule);
    var w := Position(rules, WireHint);
    var b := Position(rules, RetailFallback);
    RefundAfterHint(rules, s, r, "suspicious");
    RefundAfterHint(rules, i, r, "internal");
    RefundAfterHint(rules, f, r, "fee");
    TailOrder(rules, r, h, w, b);
    LastFour(rules, r, h, w, b, s, i, f);
  }

  lemma LastFour(rules: seq<ClassificationRule>, r: nat, h: nat, w: nat, b: nat, s: nat, i: nat, f: nat)
    requires |rules| == 7 && s < r && i < r && f < r && r < h < w < b < 7
    requires rules[s] == SuspiciousHint && rules[i] == InternalHint && rules[f] == FeeHint
    requires rules[r] == RefundRule && rules[h] == HighValueRule && rules[w] == WireHint && rules[b] == RetailFallback
    ensures rules[3..] == V1_TAIL
  {
    assert r == 3 && h == 4 && w == 5 && b == 6;
  }

  lemma HeadsPermute<T(!new)>(xs: seq<T>, head: seq<T>, tail: seq<T>)
    requires multiset(xs) == multiset(head + tail)
    requires |head| <= |xs| && xs[|head|..] == tail
    ensures multiset(xs[..|head|]) == multiset(head)
  {
    assert xs == xs[..|head|] + tail;
    assert multiset(xs[..|head|]) == multiset(xs) - multiset(tail);
    assert multiset(head) == multiset(head + tail) - multiset(tail);
  }

  lemma FreeOrder(rules: seq<ClassificationRule>, head: seq<ClassificationRule>, tail: seq<ClassificationRule>)
    requires multiset(rules) == multiset(head + tail)
    requires |head| <= |rules| && rules[|head|..] == tail
    requires forall q :: q in head ==> q in [SuspiciousHint, InternalHint, FeeHint]
    ensures SameCategories(rules, head + tail)
  {
    HeadsPermute(rules, head, tail);
    PermutedLength(rules[..|head|], head);
    assert rules == rules[..|head|] + tail;
    forall t
      ensures CategoryUnder(rules, t) == CategoryUnder(head + tail, t)
    {
      HintOrderIsFree(rules[..|head|], head, t);
      FirstMatchConcat(rules[..|head|], tail, t);
      FirstMatchConcat(head, tail, t);
    }
  }

  // ---- Running again later ----

  /** `a` is `b` with some future-dated violations left out. */
  predicate Prunes(a: seq<Violation>, b: seq<Violation>) {
    if b == [] then a == []
    else
      || (a != [] && a[0] == b[0] && Prunes(a[1..], b[1..]))
      || (b[0].ruleId == NotFutureDated.Id() && Prunes(a, b[1..]))
  }

  lemma {:induction false} PrunesConcat(
    a: seq<Violation>, b: seq<Violation>, c: seq<Violation>, d: seq<Violation>)
    requires Prunes(a, b) && Prunes(c, d)
    ensures Prunes(a + c, b + d)
  {
    if b == [] {
      assert a + c == c && b + d == d;
    } else {
      assert (b + d)[1..] == b[1..] + d;
      if a != [] && a[0] == b[0] && Prunes(a[1..], b[1..]) {
        assert (a + c)[1..] == a[1..] + c;
        PrunesConcat(a[1..], b[1..], c, d);
      } else {
        PrunesConcat(a, b[1..], c, d);
      }
    }
  }

  lemma {:induction false} ViolationsLater(
    rules: seq<ValidationRule>, t: Transaction, c: Category, now: int, later: int)
    requires now <= later
    ensures Prunes(Violations(rules, t, c, later), Violations(rules, t, c, now))
  {
    if rules != [] {
      ViolationsLater(rules[1..], t, c, now, later);
      var a, b := rules[0].Check(t, c, later), rules[0].Check(t, c, now);
      assert Prunes([], []);
      assert Prunes(a, b);
      PrunesConcat(a, b, Violations(rules[1..], t, c, later), Violations(rules[1..], t, c, now));
    }
  }

  /**
   Running the same transactions again with later clock readings classifies them alike, so all
   line items stay, and can only lose future-dated violations.
   */
  lemma {:induction false} RunLater(rules: RuleSet, ts: seq<Transaction>, nows: seq<int>, laters: seq<int>)
    requires |nows| == |ts| == |laters|
    requires forall i :: 0 <= i < |ts| ==> nows[i] <= laters[i]
    ensures match (Run(rules, ts, nows), Run(rules, ts, laters))
            case (Ok(a), Ok(b)) => a.classified == b.classified && Prunes(b.violations, a.violations)
            case (Err(e), Err(f)) => e == f
            case (_, _) => false
  {
    if ts != [] {
      RunLater(rules, ts[1..], nows[1..], laters[1..]);
      var f := FirstMatch(rules.classification, ts[0]);
      if f.Some? && Run(rules, ts[1..], nows[1..]).Ok? {
        var c := f.value.Target();
        ViolationsLater(rules.validation, ts[0], c, nows[0], laters[0]);
        PrunesConcat(
          Violations(rules.validation, ts[0], c, laters[0]), Violations(rules.validation, ts[0], c, nows[0]),
          Run(rules, ts[1..], laters[1..]).value.violations, Run(rules, ts[1..], nows[1..]).value.violations);
      }
    }
  }

  // ---- The text behind definition_hash ----

  function ClassificationIds(rules: seq<ClassificationRule>): seq<string> {
    if rules == [] then [] else [rules[0].Id()] + ClassificationIds(rules[1..])
  }

  function ValidationIds(rules: seq<ValidationRule>): seq<string> {
    if rules == [] then [] else [rules[0].Id()] + ValidationIds(rules[1..])
  }

  /** What `definition_hash` is the SHA-256 of. */
  function RuleSetText(rules: RuleSet): string {
    DefinitionText(ClassificationIds(rules.classification), ValidationIds(rules.validation))
  }

  function DefinitionText(classification: seq<string>, validation: seq<string>): string {
    Strings.Join('|', classification + validation)
  }

  ghost predicate GoodIds(ids: seq<string>, prefix: string) {
    forall i :: 0 <= i < |ids| ==> ids[i] != "" && Strings.Free(ids[i], '|') && prefix <= ids[i]
  }

  /** Without prefixes the text determines the concatenated id list, and nothing more. */
  lemma DefinitionTextIsConcatenation(c: seq<string>, v: seq<string>, d: seq<string>, w: seq<string>)
    requires GoodIds(c, "") && GoodIds(v, "") && GoodIds(d, "") && GoodIds(w, "")
    ensures DefinitionText(c, v) == DefinitionText(d, w) <==> c + v == d + w
  {
    var a, b := c + v, d + w;
    if DefinitionText(c, v) == DefinitionText(d, w) {
      if a != [] && b != [] {
        Strings.JoinInjective('|', a, b);
      }
    }
  }

  /** So the place where classification ends can be lost... */
  lemma BoundaryCanBeLost()
    ensures GoodIds(["a"], "") && GoodIds(["b"], "") && GoodIds(["a", "b"], "")
    ensures DefinitionText(["a"], ["b"]) == DefinitionText(["a", "b"], [])
  {
    assert ["a"] + ["b"] == ["a", "b"] + [];
  }

  /** ...but not when the ids carry the two prefixes of the rule catalogue. */
  lemma DefinitionTextDetermines(c: seq<string>, v: seq<string>, d: seq<string>, w: seq<string>)
    requires GoodIds(c, "classify.") && GoodIds(v, "validate.")
    requires GoodIds(d, "classify.") && GoodIds(w, "validate.")
    ensures DefinitionText(c, v) == DefinitionText(d, w) <==> c == d && v == w
  {
    DefinitionTextIsConcatenation(c, v, d, w);
    if c + v == d + w {
      SameBoundary(c, v, d, w);
      assert c == (c + v)[..|c|] && d == (d + w)[..|d|];
      assert v == (c + v)[|c|..] && w == (d + w)[|d|..];
    }
  }

  lemma SameBoundary(c: seq<string>, v: seq<string>, d: seq<string>, w: seq<string>)
    requires GoodIds(c, "classify.") && GoodIds(v, "validate.")
    requires GoodIds(d, "classify.") && GoodIds(w, "validate.")
    requires c + v == d + w
    ensures |c| == |d|
  {
    var x := c + v;
    assert forall k :: 0 <= k < |x| ==> ((x[k][0] == 'c') <==> k < |c|);
    assert x == d + w;
    assert forall k :: 0 <= k < |x| ==> ((x[k][0] == 'c') <==> k < |d|);
    assert |c| < |x| ==> x[|c|][0] != 'c';
    assert |d| < |x| ==> x[|d|][0] != 'c';
  }

  // ---- The catalogue's own ids ----

  lemma NotInIsFree(s: string, c: char)
    requires c !in s
    ensures Strings.Free(s, c)
  {
  }

  lemma ClassificationIdBarless(r: ClassificationRule)
    ensures '|' !in r.Id()
  {
  }

  lemma ClassificationIdPrefixed(r: ClassificationRule)
    ensures |r.Id()| > 9 && r.Id()[..9] == "classify."
  {
  }

  lemma ClassificationIdGood(r: ClassificationRule)
    ensures r.Id() != "" && Strings.Free(r.Id(), '|') && "classify." <= r.Id()
  {
    ClassificationIdBarless(r);
    ClassificationIdPrefixed(r);
    GoodText(r.Id(), "classify.");
  }

  lemma ValidationIdBarless(r: ValidationRule)
    ensures '|' !in r.Id()
  {
  }

  lemma ValidationIdPrefixed(r: ValidationRule)
    ensures |r.Id()| > 9 && r.Id()[..9] == "validate."
  {
  }

  lemma ValidationIdGood(r: ValidationRule)
    ensures r.Id() != "" && Strings.Free(r.Id(), '|') && "validate." <= r.Id()
  {
    ValidationIdBarless(r);
    ValidationIdPrefixed(r);
    GoodText(r.Id(), "validate.");
  }

  lemma GoodText(id: string, prefix: string)
    requires '|' !in id && |id| > 9 && id[..9] == prefix
    ensures id != "" && Strings.Free(id, '|') && prefix <= id
  {
    NotInIsFree(id, '|');
  }

  /** Ids tell rules apart: their lengths already do. */
  lemma IdsDistinct(p: ClassificationRule, q: ClassificationRule, u: ValidationRule, v: ValidationRule)
    ensures p.Id() == q.Id() ==> p == q
    ensures u.Id() == v.Id() ==> u == v
  {
    assert |SuspiciousHint.Id()| == 24 && |InternalHint.Id()| == 26 && |FeeHint.Id()| == 12;
    assert |RefundRule.Id()| == 15 && |HighValueRule.Id()| == 29 && |WireHint.Id()| == 22;
    assert |RetailFallback.Id()| == 32;
    assert |CurrencyFormat.Id()| == 24 && |PositiveAmount.Id()| == 35;
    assert |HighValueCounterparty.Id()| == 41 && |NotFutureDated.Id()| == 36;
  }

  lemma {:induction false} ClassificationIdsGood(rules: seq<ClassificationRule>)
    ensures GoodIds(ClassificationIds(rules), "classify.") && |ClassificationIds(rules)| == |rules|
    ensures forall i :: 0 <= i < |rules| ==> ClassificationIds(rules)[i] == rules[i].Id()
  {
    if rules != [] {
      ClassificationIdGood(rules[0]);
      ClassificationIdsGood(rules[1..]);
    }
  }

  lemma {:induction false} ValidationIdsGood(rules: seq<ValidationRule>)
    ensures GoodIds(ValidationIds(rules), "validate.") && |ValidationIds(rules)| == |rules|
    ensures forall i :: 0 <= i < |rules| ==> ValidationIds(rules)[i] == rules[i].Id()
  {
    if rules != [] {
      ValidationIdGood(rules[0]);
      ValidationIdsGood(rules[1..]);
    }
  }

  /** Two rule sets of the catalogue have the same text exactly if they run the same rules in the same order. */
  lemma RuleSetTextDetermines(a: RuleSet, b: RuleSet)
    ensures RuleSetText(a) == RuleSetText(b) <==> a.classification == b.classification && a.validation == b.validation
  {
    hide GoodIds, DefinitionText, ClassificationIds, ValidationIds;
    ClassificationIdsGood(a.classification);
    ClassificationIdsGood(b.classification);
    ValidationIdsGood(a.validation);
    ValidationIdsGood(b.validation);
    DefinitionTextDetermines(ClassificationIds(a.classification), ValidationIds(a.validation),
                             ClassificationIds(b.classification), ValidationIds(b.validation));
    if RuleSetText(a) == RuleSetText(b) {
      SameIdsSameRules(a.classification, b.classification, a.validation, b.validation);
    }
  }

  lemma SameIdsSameRules(
    a: seq<ClassificationRule>, b: seq<ClassificationRule>, v: seq<ValidationRule>, w: seq<ValidationRule>)
    requires ClassificationIds(a) == ClassificationIds(b) && ValidationIds(v) == ValidationIds(w)
    ensures a == b && v == w
  {
    hide GoodIds, ClassificationIds, ValidationIds;
    ClassificationIdsGood(a);
    ClassificationIdsGood(b);
    ValidationIdsGood(v);
    ValidationIdsGood(w);
    forall i | 0 <= i < |a|
      ensures a[i] == b[i]
    {
      IdsDistinct(a[i], b[i], CurrencyFormat, CurrencyFormat);
    }
    forall i | 0 <= i < |v|
      ensures v[i] == w[i]
    {
      IdsDistinct(FeeHint, FeeHint, v[i], w[i]);
    }
  }
}
