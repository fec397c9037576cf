/**
 The scheduled run as it executes alone, apart from one rival that may create the service account
 first: account lookup, idempotency check, generation, and the handler around them.
 */
module ScheduledReport {
  import opened Base
  import opened ReportService
  import opened Store
  import opened Transactions
  import Calendar
  import ReportBuilder
  import ReportLaws
  import Rules
  import Scheduling
  import Strings

  function ServiceUser(): User {
    User(SERVICE_ACCOUNT_EMAIL, false)
  }

  predicate IsAccount(db: Db, id: UserId) {
    id in db.users && db.users[id].email == SERVICE_ACCOUNT_EMAIL
  }

  ghost predicate NoAccount(db: Db) {
    EmailFree(db, SERVICE_ACCOUNT_EMAIL)
  }

  function WithAccount(db: Db, id: UserId): Db {
    db.(users := db.users[id := ServiceUser()])
  }

  /** A fresh id, a rival that commits the account between our read and our insert, and a fault. */
  datatype AccountWorld = AccountWorld(freshId: UserId, rival: Option<UserId>, raises: bool)

  ghost predicate FreshIds(w: AccountWorld, db: Db) {
    w.freshId !in db.users && (w.rival.Some? ==> w.rival.value !in db.users && w.rival.value != w.freshId)
  }

  /** The database after the account lookup, whoever created the account. */
  ghost function AccountStep(db: Db, w: AccountWorld): Db {
    if !NoAccount(db) then db
    else if w.rival.Some? then WithAccount(db, w.rival.value)
    else if w.raises then db
    else WithAccount(db, w.freshId)
  }

  lemma ServiceEmailIs()
    ensures SERVICE_ACCOUNT_EMAIL == "system@compliance.local"
  {
  }

  lemma AccountAdded(db: Db, id: UserId)
    requires UniqueEmails(db) && NoAccount(db) && id !in db.users
    ensures UniqueEmails(WithAccount(db, id)) && IsAccount(WithAccount(db, id), id)
  {
  }

  /**
   `get_or_create_service_account`: insert in a savepoint; if the unique index refuses, the
   rival's account is there to be read.
   */
  method GetOrCreateServiceAccount(session: Session, w: AccountWorld) returns (r: Result<UserId, Failure>)
    requires session.pending == [] && UniqueEmails(session.database.state) && FreshIds(w, session.database.state)
    modifies session, session.database
    ensures UniqueEmails(session.database.state)
    ensures r.Ok? ==> IsAccount(session.database.state, r.value) && session.pending == []
    ensures r.Ok? ==> session.database.state.users[r.value].email == "system@compliance.local"
    ensures r.Err? <==> w.raises && NoAccount(old(session.database.state))
    ensures session.database.state == AccountStep(old(session.database.state), w)
  {
    hide Strings.Lower, SERVICE_ACCOUNT_EMAIL, UniqueEmails;
    ServiceEmailIs();
    ServiceEmailIsLower();
    var users := new UserRepository(session);
    assert session.View() == session.database.state;
    var found := users.GetByEmail(SERVICE_ACCOUNT_EMAIL);
    if found.Some? {
      return Ok(found.value);
    }
    assert NoAccount(session.database.state);
    if w.rival.Some? {
      AccountAdded(session.database.state, w.rival.value);
      session.database.state := WithAccount(session.database.state, w.rival.value);
    } else {
      AccountAdded(session.database.state, w.freshId);
    }
    assert session.View() == session.database.state;
    var created := users.Create(w.freshId, SERVICE_ACCOUNT_EMAIL, false);
    var id := w.freshId;
    if !created {
      found := users.GetByEmail(SERVICE_ACCOUNT_EMAIL);
      assert found.Some?; // the branch that raises again cannot be reached
      id := found.value;
    } else {
      OneWriteCommits(session.database.state, session.pending[0]);
      assert session.pending == [session.pending[0]];
    }
    var ok := session.Commit(w.raises);
    return if ok then Ok(id) else Err(Raised(""));
  }

  datatype Scheduled = Scheduled(run: RunId, reused: bool)

  /** The service account already has a completed run of this period and version. */
  ghost predicate Reusable(db: Db, period: Calendar.Period, version: string) {
    exists user, id :: IsAccount(db, user) && id in db.runs && Answers(db.runs[id], period, version, user)
  }

  /** Exactly when a scheduled run of a known version succeeds. */
  ghost predicate Succeeds(sha: string -> string, db: Db, period: Calendar.Period, a: AccountWorld, w: World)
    requires |w.clocks.perTransaction| == |w.rows|
  {
    && !(a.raises && NoAccount(db))
    && (Reusable(AccountStep(db, a), period, DEFAULT_VERSION)
        || (!StartRaises(w) && !WorkFails(sha, period, Rules.RULE_SET_V1, w)))
  }

  /** The database a scheduled run of a known version leaves behind. */
  ghost predicate LeavesBehind(
    sha: string -> string, before: Db, after: Db, period: Calendar.Period, a: AccountWorld, w: World)
    requires |w.clocks.perTransaction| == |w.rows|
  {
    var db := AccountStep(before, a);
    if (a.raises && NoAccount(before)) || Reusable(db, period, DEFAULT_VERSION) then after == db
    else exists user :: IsAccount(db, user) && after == Outcome(sha, db, period, Rules.RULE_SET_V1, user, w)
  }

  lemma OnlyVersion(version: Option<string>)
    ensures Rules.GetRuleSet(VersionOr(version)).Some? <==> VersionOr(version) == DEFAULT_VERSION
    ensures Rules.GetRuleSet(VersionOr(version)).Some? ==> Rules.GetRuleSet(VersionOr(version)).value == Rules.RULE_SET_V1
    ensures VersionOr(Some(DEFAULT_VERSION)) == DEFAULT_VERSION == Rules.RULE_SET_V1.version
    ensures VersionOr(version) == DEFAULT_VERSION <==> version.None? || version.value == "" || version.value == "v1"
  {
    assert |DEFAULT_VERSION| == 2;
  }

  lemma FoundIsReusable(db: Db, period: Calendar.Period, version: string, user: UserId, found: Option<RunId>)
    requires UniqueEmails(db) && IsAccount(db, user) && LatestCompleted(db, period, version, user, found)
    ensures found.Some? <==> Reusable(db, period, version)
  {
    if Reusable(db, period, version) {
      var u, id :| IsAccount(db, u) && id in db.runs && Answers(db.runs[id], period, version, u);
      assert u == user;
    }
  }

  /**
   `run_scheduled_report`: the latest completed run of this period, version and account if there
   is one, and a new generation exactly if there is none.
   */
  method RunScheduledReport(
    sha: string -> string, session: Session, period: Calendar.Period, version: Option<string>, a: AccountWorld,
    w: World)
    returns (r: Result<Scheduled, Failure>)
    requires session.pending == [] && UniqueEmails(session.database.state)
    requires FreshIds(a, session.database.state) && Plausible(w, session.database.state, period)
    modifies session, session.database
    ensures Rules.GetRuleSet(VersionOr(version)).None?
            ==> r == Err(UnknownVersion) && session.database.state == old(session.database.state)
    ensures Rules.GetRuleSet(VersionOr(version)).Some? ==>
              && (r.Ok? <==> Succeeds(sha, old(session.database.state), period, a, w))
              && LeavesBehind(sha, old(session.database.state), session.database.state, period, a, w)
    ensures UniqueEmails(session.database.state)
    ensures r.Ok? ==> Answered(old(session.database.state), session.database.state, period, version, w.runId, r.value)
    ensures r.Ok? ==>
              (r.value.reused <==> Reusable(AccountStep(old(session.database.state), a), period, DEFAULT_VERSION))
    ensures r.Ok? && !r.value.reused ==> session.database.state.runs[r.value.run].count == |w.rows|
    ensures forall id :: id in old(session.database.state).runs ==>
              && id in session.database.state.runs
              && session.database.state.runs[id] == old(session.database.state).runs[id]
  {
    hide Outcome, WorkFails, StartRaises, ReportLaws.ListForPeriod, Reusable, Answers, UniqueEmails, LatestCompleted,
         Rules.RULE_SET_V1;
    OnlyVersion(version);
    var rules := Rules.GetRuleSet(VersionOr(version));
    if rules.None? {
      return Err(UnknownVersion);
    }
    var account := GetOrCreateServiceAccount(session, a);
    if account.Err? {
      return Err(account.error);
    }
    ghost var before := session.database.state;
    var repository := new ReportRepository(session);
    var existing := repository.FindCompleted(period, rules.value.version, account.value);
    FoundIsReusable(before, period, DEFAULT_VERSION, account.value, existing);
    if existing.Some? {
      ReusedAnswers(old(session.database.state), before, period, version, account.value, existing.value, w.runId);
      return Ok(Scheduled(existing.value, true));
    }
    var run := GenerateReport(sha, session, period, Some(rules.value.version), account.value, w);
    OutcomeKeeps(sha, before, period, rules.value, account.value, w);
    KeepsEmails(before, session.database.state);
    if run.Err? {
      return Err(run.error);
    }
    GeneratedCount(sha, before, period, rules.value, account.value, w);
    GeneratedAnswers(
      old(session.database.state), before, session.database.state, period, version, account.value, w.runId);
    return Ok(Scheduled(run.value, false));
  }

  lemma GeneratedCount(
    sha: string -> string, db: Db, period: Calendar.Period, rules: Rules.RuleSet, user: UserId, w: World)
    requires |w.clocks.perTransaction| == |w.rows| && !StartRaises(w) && !WorkFails(sha, period, rules, w)
    ensures var after := Outcome(sha, db, period, rules, user, w);
            w.runId in after.runs && after.runs[w.runId].count == |w.rows|
  {
    hide ReportBuilder.BuildReport, WorkFails, ItemRows, StartRaises;
    WorkBuilds(sha, period, rules, w);
  }

  lemma KeepsEmails(before: Db, after: Db)
    requires UniqueEmails(before) && after.users == before.users
    ensures UniqueEmails(after)
  {
  }

  /** What a caller that got an answer can rely on. */
  ghost predicate Answered(
    before: Db, after: Db, period: Calendar.Period, version: Option<string>, newRun: RunId, s: Scheduled)
  {
    exists user ::
      && IsAccount(after, user)
      && s.run in after.runs
      && Answers(after.runs[s.run], period, VersionOr(version), user)
      && (s.reused ==> after.runs == before.runs && after.items == before.items && after.audit == before.audit
                       && LatestCompleted(before, period, VersionOr(version), user, Some(s.run)))
      && (!s.reused ==> s.run == newRun && LatestCompleted(before, period, VersionOr(version), user, None))
  }

  lemma ReusedAnswers(
    first: Db, db: Db, period: Calendar.Period, version: Option<string>, user: UserId, found: RunId, id: RunId)
    requires db.runs == first.runs && db.items == first.items && db.audit == first.audit && IsAccount(db, user)
    requires LatestCompleted(db, period, VersionOr(version), user, Some(found))
    ensures Answered(first, db, period, version, id, Scheduled(found, true))
  {
  }

  lemma GeneratedAnswers(
    first: Db, before: Db, after: Db, period: Calendar.Period, version: Option<string>, user: UserId, id: RunId)
    requires before.runs == first.runs && after.users == before.users && IsAccount(before, user)
    requires LatestCompleted(before, period, VersionOr(version), user, None)
    requires id in after.runs && Answers(after.runs[id], period, VersionOr(version), user)
    ensures Answered(first, after, period, version, id, Scheduled(id, false))
  {
  }

  /** Whatever happens, a generation touches no run but its own and no other table. */
  lemma OutcomeKeeps(
    sha: string -> string, db: Db, period: Calendar.Period, rules: Rules.RuleSet, user: UserId, w: World)
    requires w.runId !in db.runs && |w.clocks.perTransaction| == |w.rows|
    ensures var after := Outcome(sha, db, period, rules, user, w);
            && after.users == db.users && after.transactions == db.transactions
            && (forall id :: id in db.runs ==> id in after.runs && after.runs[id] == db.runs[id])
            && (forall id :: id in after.runs ==> id in db.runs || id == w.runId)
            && (!StartRaises(w) && !WorkFails(sha, period, rules, w) ==>
                 w.runId in after.runs && Answers(after.runs[w.runId], period, rules.version, user))
            && (w.runId in after.runs && after.runs[w.runId].status != Completed ==>
                 after.items == db.items && after.audit == db.audit)
  {
    hide ReportBuilder.BuildReport, WorkFails, ItemRows, StartRaises, HandlerRaises, Rules.RuleSetText;
    var after := Outcome(sha, db, period, rules, user, w);
    if StartRaises(w) {
      assert after == db;
    } else if !WorkFails(sha, period, rules, w) {
      assert after.runs[w.runId].status == Completed;
    } else {
      assert after.items == db.items;
    }
  }

  // ---- The handler ----

  datatype Summary = Summary(
    run: RunId, status: Status, period: Calendar.Period, version: string, count: nat, violations: nat, reused: bool)

  datatype HandlerError = InvalidEvent(event: Scheduling.EventError) | RunFailed(failure: Failure)

  function Summarize(db: Db, s: Scheduled): Summary
    requires s.run in db.runs
  {
    var run := db.runs[s.run];
    Summary(s.run, run.status, run.period, run.version, run.count, |run.violations|, s.reused)
  }

  /** `handler`: resolve the period, run in a session of its own, report what the store now holds. */
  method Handle(
    sha: string -> string, database: Database, event: Scheduling.Event, now: Calendar.Reading, a: AccountWorld, w: World)
    returns (r: Result<Summary, HandlerError>)
    requires UniqueEmails(database.state) && FreshIds(a, database.state)
    requires Scheduling.ResolvePeriod(event, now).Ok?
             ==> Plausible(w, database.state, Scheduling.ResolvePeriod(event, now).value)
    modifies database
    ensures Scheduling.ResolvePeriod(event, now).Err?
            ==> r == Err(InvalidEvent(Scheduling.ResolvePeriod(event, now).error)) && database.state == old(database.state)
    ensures Scheduling.ResolvePeriod(event, now).Ok? ==>
              var period := Scheduling.ResolvePeriod(event, now).value;
              if Rules.GetRuleSet(VersionOr(event.version)).None? then
                r.Err? && database.state == old(database.state)
              else
                && (r.Ok? <==> Succeeds(sha, old(database.state), period, a, w))
                && LeavesBehind(sha, old(database.state), database.state, period, a, w)
    ensures r.Ok? ==>
              && Scheduling.ResolvePeriod(event, now) == Ok(r.value.period)
              && r.value.status == Completed && r.value.version == VersionOr(event.version)
              && r.value.run in database.state.runs
              && r.value.count == database.state.runs[r.value.run].count
              && r.value.violations == |database.state.runs[r.value.run].violations|
              && (!r.value.reused ==> r.value.run == w.runId && r.value.count == |w.rows|)
              && Answered(old(database.state), database.state, r.value.period, event.version, w.runId,
                          Scheduled(r.value.run, r.value.reused))
  {
    hide Scheduling.ResolvePeriod, Succeeds, LeavesBehind, Plausible, UniqueEmails, FreshIds, Rules.GetRuleSet;
    var resolved := Scheduling.ResolvePeriod(event, now);
    if resolved.Err? {
      return Err(InvalidEvent(resolved.error));
    }
    var session := new Session(database);
    var outcome := RunScheduledReport(sha, session, resolved.value, event.version, a, w);
    if outcome.Err? {
      session.Rollback();
      return Err(RunFailed(outcome.error));
    }
    var summary := Summarize(database.state, outcome.value);
    session.Rollback();
    return Ok(summary);
  }
}
