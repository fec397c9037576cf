/**
 The two report use cases as they run alone: generating a report in two transactions, and the
 scheduled run around it. Where an outside call may raise is a parameter; logging never raises.
 */
module ReportService {
  import opened Base
  import opened Store
  import opened Transactions
  import Calendar
  import Fingerprint
  import ReportBuilder
  import ReportLaws
  import Rules

  const DEFAULT_VERSION := "v1"

  /** `version or DEFAULT`: a missing or empty version means the default. */
  function VersionOr(version: Option<string>): string {
    if version.Some? && version.value != "" then version.value else DEFAULT_VERSION
  }

  /** The calls that may raise whatever their arguments. */
  datatype Point =
    | CreateFlush | StartCommit
    | Loading | Building | Exporting | CompleteFlush | FinalCommit
    | FailFlush | FailCommit

  /** Everything a generation takes from outside. */
  datatype World = World(
    runId: RunId, createdAt: int, rows: seq<Transaction>, clocks: ReportBuilder.Clocks, exports: Exports,
    finishedAt: int, raises: set<Point>, message: string)

  /** Identifiers are fresh; the rows are a load of the period; every transaction has a reading. */
  ghost predicate Plausible(w: World, db: Db, period: Calendar.Period) {
    && w.runId !in db.runs
    && ReportLaws.ListForPeriod(db.transactions, Calendar.Window(period), w.rows)
    && |w.clocks.perTransaction| == |w.rows|
  }

  datatype Failure = UnknownVersion | Raised(message: string)

  predicate StartRaises(w: World) {
    CreateFlush in w.raises || StartCommit in w.raises
  }

  predicate WorkRaises(w: World) {
    || Loading in w.raises || Building in w.raises || Exporting in w.raises
    || CompleteFlush in w.raises || FinalCommit in w.raises
  }

  predicate HandlerRaises(w: World) {
    FailFlush in w.raises || FailCommit in w.raises
  }

  /** The run row the first transaction commits. */
  function FirstRow(
    sha: string -> string, period: Calendar.Period, rules: Rules.RuleSet, user: UserId, at: int): Run
  {
    NewRun(period, rules.version, sha(Rules.RuleSetText(rules)), user, at)
  }

  /** Why the second transaction can fail: an outside call, no matching rule, or a value too wide. */
  predicate WorkFails(sha: string -> string, period: Calendar.Period, rules: Rules.RuleSet, w: World)
    requires |w.clocks.perTransaction| == |w.rows|
  {
    || WorkRaises(w)
    || match ReportBuilder.BuildReport(sha, w.rows, rules, period, w.clocks)
       case Err(_) => true
       case Ok(report) => !ReportFits(report)
  }

  /** The database a generation leaves behind, case by case. */
  function Outcome(
    sha: string -> string, db: Db, period: Calendar.Period, rules: Rules.RuleSet, user: UserId, w: World): Db
    requires |w.clocks.perTransaction| == |w.rows|
  {
    var first := FirstRow(sha, period, rules, user, w.createdAt);
    var started := WithRun(db, w.runId, first);
    if StartRaises(w) then db
    else if !WorkFails(sha, period, rules, w) then
      var report := ReportBuilder.BuildReport(sha, w.rows, rules, period, w.clocks).value;
      WithReport(started, w.runId, CompleteRun(first, report, w.finishedAt, w.exports), report)
    else if HandlerRaises(w) then started
    else WithRun(started, w.runId, FailRun(first, w.message, w.finishedAt))
  }

  /** `generate_report`. */
  method GenerateReport(
    sha: string -> string, session: Session, period: Calendar.Period, version: Option<string>, user: UserId, w: World)
    returns (r: Result<RunId, Failure>)
    requires session.pending == [] && Plausible(w, session.database.state, period)
    modifies session, session.database
    ensures Rules.GetRuleSet(VersionOr(version)).None?
            ==> r == Err(UnknownVersion) && session.database.state == old(session.database.state)
    ensures var rules := Rules.GetRuleSet(VersionOr(version));
            rules.Some? ==>
              && session.database.state == Outcome(sha, old(session.database.state), period, rules.value, user, w)
              && (r.Ok? <==>
                   !StartRaises(w) && !WorkFails(sha, period, rules.value, w))
              && r == (if r.Ok? then Ok(w.runId) else Err(Raised(w.message)))
    ensures r.Ok? ==> session.pending == []
  {
    hide ReportBuilder.BuildReport, ReportFits, ItemRows, WorkFails, HandlerRaises;
    var rules := Rules.GetRuleSet(VersionOr(version));
    if rules.None? {
      return Err(UnknownVersion);
    }
    var repository := new ReportRepository(session);
    if CreateFlush in w.raises {
      return Err(Raised(w.message));
    }
    repository.CreatePending(
      w.runId, period, rules.value.version, sha(Rules.RuleSetText(rules.value)), user, w.createdAt);
    var started := session.Commit(StartCommit in w.raises);
    if !started {
      return Err(Raised(w.message));
    }
    var done := SecondTransaction(sha, session, period, rules.value, w);
    if done {
      return Ok(w.runId);
    }
    HandleFailure(session, w);
    return Err(Raised(w.message));
  }

  /** The body of the `try`: load, build, store, export, complete, commit. */
  method SecondTransaction(
    sha: string -> string, session: Session, period: Calendar.Period, rules: Rules.RuleSet, w: World)
    returns (done: bool)
    requires session.pending == [] && w.runId in session.database.state.runs
    requires |w.clocks.perTransaction| == |w.rows|
    modifies session, session.database
    ensures done <==> !WorkFails(sha, period, rules, w)
    ensures !done ==> session.database.state == old(session.database.state)
    ensures done ==>
      var report := ReportBuilder.BuildReport(sha, w.rows, rules, period, w.clocks).value;
      && session.pending == []
      && session.database.state == WithReport(
           old(session.database.state), w.runId,
           CompleteRun(old(session.database.state).runs[w.runId], report, w.finishedAt, w.exports), report)
  {
    hide ReportBuilder.BuildReport, ReportFits, ItemRows;
    if Loading in w.raises || Building in w.raises {
      return false;
    }
    var built := ReportBuilder.Build(sha, w.rows, rules, period, w.clocks);
    if built.Err? {
      return false;
    }
    var report := built.value;
    var repository := new ReportRepository(session);
    repository.AddLineItems(w.runId, report);
    repository.AddAuditEntries(w.runId, report);
    if Exporting in w.raises || CompleteFlush in w.raises {
      return false;
    }
    RowsLeaveRuns(session.database.state, w.runId, report);
    var flushed := repository.MarkCompleted(w.runId, report, w.finishedAt, w.exports);
    if !flushed {
      return false;
    }
    ghost var run := CompleteRun(old(session.database.state).runs[w.runId], report, w.finishedAt, w.exports);
    assert session.pending == ReportWrites(w.runId, run, report);
    ReportWritesCommit(session.database.state, w.runId, run, report);
    done := session.Commit(FinalCommit in w.raises);
  }

  lemma RowsLeaveRuns(db: Db, id: RunId, report: ReportBuilder.Report)
    ensures ApplyAll(db, [AddItems(id, ItemRows(report)), AddAudit(id, report.audit)]).runs == db.runs
  {
    var ws := [AddItems(id, ItemRows(report)), AddAudit(id, report.audit)];
    assert ws[1..] == [ws[1]];
    OneWriteCommits(Apply(db, ws[0]), ws[1]);
  }

  /** The `except` clause: roll back, re-read, mark failed, commit. */
  method HandleFailure(session: Session, w: World)
    requires w.runId in session.database.state.runs
    modifies session, session.database
    ensures session.database.state ==
      if HandlerRaises(w) then old(session.database.state)
      else WithRun(old(session.database.state), w.runId,
                   FailRun(old(session.database.state).runs[w.runId], w.message, w.finishedAt))
  {
    session.Rollback();
    if FailFlush in w.raises {
      return;
    }
    var repository := new ReportRepository(session);
    repository.MarkFailed(w.runId, w.message, w.finishedAt);
    assert session.pending == [session.pending[0]];
    OneWriteCommits(session.database.state, session.pending[0]);
    var ok := session.Commit(FailCommit in w.raises);
  }

  /**
   How to read `Outcome`, field by field: nothing; a bare RUNNING run if the handler
   failed too; a bare FAILED run with the message; or a COMPLETED run with the whole report.
   */
  lemma OutcomeIsAllOrNothing(
    sha: string -> string, db: Db, period: Calendar.Period, rules: Rules.RuleSet, user: UserId, w: World)
    requires |w.clocks.perTransaction| == |w.rows| && w.runId !in db.runs && NoRows(db, w.runId)
    requires !StartRaises(w)
    ensures w.runId in Outcome(sha, db, period, rules, user, w).runs
    ensures var after := Outcome(sha, db, period, rules, user, w);
            var run := after.runs[w.runId];
            && run.period == period && run.version == rules.version && run.user == user && run.createdAt == w.createdAt
            && run.definitionHash == sha(Rules.RuleSetText(rules))
            && (WorkFails(sha, period, rules, w) ==> Untouched(run) && NoRows(after, w.runId))
            && (WorkFails(sha, period, rules, w) && HandlerRaises(w) ==>
                 run.status == Running && run.error.None? && run.finishedAt.None?)
            && (WorkFails(sha, period, rules, w) && !HandlerRaises(w) ==>
                 run.status == Failed && run.error == Some(w.message) && run.finishedAt == Some(w.finishedAt))
    ensures !WorkFails(sha, period, rules, w) ==>
              var after := Outcome(sha, db, period, rules, user, w);
              var run, report := after.runs[w.runId], ReportBuilder.BuildReport(sha, w.rows, rules, period, w.clocks).value;
              && run.status == Completed && run.error.None? && run.finishedAt == Some(w.finishedAt)
              && run.count == |w.rows| && run.inputHash == sha(Fingerprint.CanonicalText(w.rows))
              && run.violations == report.violations && run.exports == w.exports
              && RowsOf(after.items, w.runId) == ItemRows(report) && RowsOf(after.audit, w.runId) == report.audit
              && |report.audit| == 4
  {
    hide WorkFails, ItemRows, Rules.RuleSetText, Fingerprint.CanonicalText, ReportBuilder.BuildReport;
    if !WorkFails(sha, period, rules, w) {
      WorkBuilds(sha, period, rules, w);
      var report := ReportBuilder.BuildReport(sha, w.rows, rules, period, w.clocks).value;
      assert [] + ItemRows(report) == ItemRows(report) && [] + report.audit == report.audit;
    }
  }

  lemma WorkBuilds(sha: string -> string, period: Calendar.Period, rules: Rules.RuleSet, w: World)
    requires |w.clocks.perTransaction| == |w.rows| && !WorkFails(sha, period, rules, w)
    ensures ReportBuilder.BuildReport(sha, w.rows, rules, period, w.clocks).Ok?
    ensures var report := ReportBuilder.BuildReport(sha, w.rows, rules, period, w.clocks).value;
            && report.inputCount == |w.rows| && report.inputHash == sha(Fingerprint.CanonicalText(w.rows))
            && |report.audit| == 4
  {
    hide Fingerprint.CanonicalText, ReportFits, Rules.RuleSetText, Rules.Run;
    ReportLaws.AuditTrailCounts(sha, w.rows, rules, period, w.clocks);
  }
}
