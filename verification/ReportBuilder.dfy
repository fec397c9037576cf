/**
 The pure report pipeline: fingerprint, rule engine, aggregation and the audit trail of the four
 stages. SHA-256 is a parameter.
 */
module ReportBuilder {
  import opened Base
  import opened Transactions
  import Aggregation
  import Calendar
  import Fingerprint
  import Rules

  datatype AuditEvent =
    | IngestionLoaded(transactions: nat, at: int)
    | RulesApplied(version: string, definitionHash: string, classified: nat, at: int)
    | ValidationCompleted(violations: nat, at: int)
    | AggregationCompleted(lineItems: nat, at: int)

  datatype Report = Report(
    period: Calendar.Period, version: string, inputHash: string, inputCount: nat, generatedAt: int,
    lineItems: seq<Aggregation.LineItem>, violations: seq<Violation>, audit: seq<AuditEvent>)

  /** Every reading of the clock one build takes. */
  datatype Clocks = Clocks(started: int, perTransaction: seq<int>, applied: int, validated: int, aggregated: int)

  /** What `build_report` yields; it fails only where the engine does. */
  function BuildReport(
    sha: string -> string, ts: seq<Transaction>, rules: Rules.RuleSet, period: Calendar.Period, clocks: Clocks)
    : Result<Report, Rules.NoRuleMatched>
    requires |clocks.perTransaction| == |ts|
  {
    match Rules.Run(rules, ts, clocks.perTransaction)
    case Err(e) => Err(e)
    case Ok(r) =>
      var items := Aggregation.LineItems(r.classified);
      Ok(Report(
           period, rules.version, sha(Fingerprint.CanonicalText(ts)), |ts|, clocks.started, items, r.violations,
           [IngestionLoaded(|ts|, clocks.started),
            RulesApplied(rules.version, sha(Rules.RuleSetText(rules)), |r.classified|, clocks.applied),
            ValidationCompleted(|r.violations|, clocks.validated),
            AggregationCompleted(|items|, clocks.aggregated)]))
  }

  /** `build_report`: the stages in order, each leaving its audit event. */
  method Build(
    sha: string -> string, ts: seq<Transaction>, rules: Rules.RuleSet, period: Calendar.Period, clocks: Clocks)
    returns (r: Result<Report, Rules.NoRuleMatched>)
    requires |clocks.perTransaction| == |ts|
    ensures r == BuildReport(sha, ts, rules, period, clocks)
  {
    hide Rules.Run, Aggregation.LineItems, Fingerprint.CanonicalText, Rules.RuleSetText;
    var audit := [IngestionLoaded(|ts|, clocks.started)];
    var inputHash := sha(Fingerprint.CanonicalText(ts));
    var engine := Rules.RunEngine(rules, ts, clocks.perTransaction);
    if engine.Err? {
      return Err(engine.error);
    }
    var classified, violations := engine.value.classified, engine.value.violations;
    audit := audit + [RulesApplied(rules.version, sha(Rules.RuleSetText(rules)), |classified|, clocks.applied)];
    audit := audit + [ValidationCompleted(|violations|, clocks.validated)];
    var items := Aggregation.AggregateLineItems(classified);
    audit := audit + [AggregationCompleted(|items|, clocks.aggregated)];
    assert audit == [audit[0], audit[1], audit[2], audit[3]];
    return Ok(Report(period, rules.version, inputHash, |ts|, clocks.started, items, violations, audit));
  }
}
