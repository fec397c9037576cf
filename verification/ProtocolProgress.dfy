/**
 Retries go through: whatever failed or unfinished runs a period has, a later invocation that is
 left alone completes, with exactly the effect of the use case run by itself. Every other outcome
 of the use case is a run of the protocol too.
 */
module ProtocolProgress {
  import opened Base
  import opened Protocol
  import opened ProtocolInvariant
  import opened ProtocolSteps
  import opened ScheduledReport
  import opened Store
  import opened Transactions
  import Calendar
  import ProtocolLaws
  import ReportBuilder
  import ReportLaws
  import ReportService
  import Rules

  lemma RunsCons(sha: string -> string, s: State, a: Action, rest: seq<Action>, t: State)
    requires CanDo(sha, s, a) && Runs(sha, Do(sha, s, a), rest, t)
    ensures Runs(sha, s, [a] + rest, t)
  {
    hide CanDo, Do;
    assert ([a] + rest)[1..] == rest;
  }

  lemma {:induction false} RunsConcat(
    sha: string -> string, s: State, acts: seq<Action>, m: State, more: seq<Action>, t: State)
    requires Runs(sha, s, acts, m) && Runs(sha, m, more, t)
    ensures Runs(sha, s, acts + more, t)
    decreases |acts|
  {
    hide CanDo, Do;
    if acts == [] {
      assert acts + more == more;
    } else {
      assert (acts + more)[1..] == acts[1..] + more;
      RunsConcat(sha, Do(sha, s, acts[0]), acts[1..], m, more, t);
    }
  }

  lemma ReachOn(sha: string -> string, s: State, acts: seq<Action>, t: State)
    requires Reachable(sha, s) && Runs(sha, s, acts, t)
    ensures Reachable(sha, t)
  {
    hide Runs, Initial;
    var s0, before :| Initial(s0) && Runs(sha, s0, before, s);
    RunsConcat(sha, s0, before, s, acts, t);
  }

  /** What a generation takes from outside, with nothing raised, and the report it leads to. */
  ghost predicate Smooth(
    sha: string -> string, s: State, i: nat, w: ReportService.World, report: ReportBuilder.Report)
  {
    && In(s, i) && w.runId !in s.owner && !ReportService.StartRaises(w) && !ReportService.WorkRaises(w)
    && ReportLaws.ListForPeriod(s.db.transactions, Calendar.Window(s.invs[i].period), w.rows)
    && Builds(sha, s.invs[i], Source(|s.db.transactions|, w.rows, w.clocks, report))
    && ReportFits(report)
  }

  /** Only invocation `i` took steps between the two states, and nothing was ingested. */
  ghost predicate OnlyMoved(s: State, t: State, i: nat) {
    && |t.invs| == |s.invs| && In(s, i) && SameCall(s.invs[i], t.invs[i])
    && (forall j :: 0 <= j < |s.invs| && j != i ==> t.invs[j] == s.invs[j])
  }

  /** From a passed check to a committed RUNNING row. */
  lemma Starts(sha: string -> string, s: State, i: nat, run: RunId, at: int) returns (acts: seq<Action>, t: State)
    requires In(s, i) && s.invs[i].phase.Cleared? && s.invs[i].user.Some? && run !in s.owner
    ensures Runs(sha, s, acts, t) && OnlyMoved(s, t, i)
    ensures t.invs[i].phase == Started(run) && t.invs[i].user == s.invs[i].user && t.owner == s.owner[run := i]
    ensures t.db == WithRun(s.db, run, FirstRow(sha, s.invs[i], s.invs[i].user.value, at))
  {
    hide RuleSetOf, Rules.RuleSetText, NewRun;
    var s1 := DoCreateRun(sha, s, i, run, at);
    var row := FirstRow(sha, s.invs[i], s.invs[i].user.value, at);
    t := DoCommitStart(s1, i);
    OneWriteCommits(s1.db, PutRun(run, row));
    acts := [CreateRun(i, run, at), CommitStart(i)];
    RunsCons(sha, s1, CommitStart(i), [], t);
    RunsCons(sha, s, CreateRun(i, run, at), [CommitStart(i)], t);
    assert [CreateRun(i, run, at)] + [CommitStart(i)] == acts;
    assert [CommitStart(i)] + [] == [CommitStart(i)];
  }

  /** Loading and building. */
  lemma BuildsUp(
    sha: string -> string, s: State, i: nat, rows: seq<Transaction>, clocks: ReportBuilder.Clocks,
    report: ReportBuilder.Report) returns (acts: seq<Action>, t: State)
    requires In(s, i) && s.invs[i].phase.Started?
    requires ReportLaws.ListForPeriod(s.db.transactions, Calendar.Window(s.invs[i].period), rows)
    requires Builds(sha, s.invs[i], Source(|s.db.transactions|, rows, clocks, report))
    ensures Runs(sha, s, acts, t) && OnlyMoved(s, t, i) && t.db == s.db
    ensures t.invs[i].phase == Built(s.invs[i].phase.run, Source(|s.db.transactions|, rows, clocks, report))
    ensures t.invs[i].user == s.invs[i].user && t.owner == s.owner
    ensures var run := s.invs[i].phase.run;
            t.invs[i].pending == [AddItems(run, ItemRows(report)), AddAudit(run, report.audit)]
  {
    hide ReportBuilder.BuildReport, ItemRows, RuleSetOf, ReportLaws.ListForPeriod;
    var s1 := DoLoad(s, i, rows);
    t := DoBuild(s1, i, clocks, report);
    acts := [Load(i, rows), Build(i, clocks, report)];
    RunsCons(sha, s1, Build(i, clocks, report), [], t);
    RunsCons(sha, s, Load(i, rows), [Build(i, clocks, report)], t);
    assert [Load(i, rows)] + [Build(i, clocks, report)] == acts;
    assert [Build(i, clocks, report)] + [] == [Build(i, clocks, report)];
  }

  /** Completing and committing. */
  lemma Finishes(
    sha: string -> string, s: State, i: nat, at: int, exports: Exports) returns (acts: seq<Action>, t: State)
    requires CanComplete(s, i)
    requires var run, report := s.invs[i].phase.run, s.invs[i].phase.source.report;
             s.invs[i].pending == [AddItems(run, ItemRows(report)), AddAudit(run, report.audit)]
    ensures Runs(sha, s, acts, t) && OnlyMoved(s, t, i) && t.invs[i].phase == Done(s.invs[i].phase.run)
    ensures t.owner == s.owner && t.invs[i].user == s.invs[i].user
    ensures var run, report := s.invs[i].phase.run, s.invs[i].phase.source.report;
            t.db == WithReport(s.db, run, CompleteRun(s.db.runs[run], report, at, exports), report)
  {
    hide ReportFits, ItemRows, CompleteRun, WithReport;
    var s1 := DoComplete(s, i, at, exports);
    var run, report := s.invs[i].phase.run, s.invs[i].phase.source.report;
    var row := CompleteRun(s.db.runs[run], report, at, exports);
    assert s1.invs[i].pending == ReportWrites(run, row, report);
    ReportWritesCommit(s.db, run, row, report);
    t := DoCommitReport(s1, i);
    acts := [Complete(i, at, exports), CommitReport(i)];
    RunsCons(sha, s1, CommitReport(i), [], t);
    RunsCons(sha, s, Complete(i, at, exports), [CommitReport(i)], t);
    assert [Complete(i, at, exports)] + [CommitReport(i)] == acts;
    assert [CommitReport(i)] + [] == [CommitReport(i)];
  }

  /**
   An invocation past its check that is left alone completes, whatever else is in the database
   and whoever else is in flight; its effect is that of the use case run by itself.
   */
  lemma GenerationGoesThrough(
    sha: string -> string, s: State, i: nat, w: ReportService.World, report: ReportBuilder.Report)
    returns (acts: seq<Action>, t: State)
    requires Inv(sha, s) && Smooth(sha, s, i, w, report) && s.invs[i].phase.Cleared? && s.invs[i].user.Some?
    ensures Runs(sha, s, acts, t) && OnlyMoved(s, t, i) && t.invs[i].phase == Done(w.runId)
    ensures t.owner == s.owner[w.runId := i] && t.invs[i].user == s.invs[i].user
    ensures var inv := s.invs[i];
            t.db == ReportService.Outcome(sha, s.db, inv.period, RuleSetOf(inv.version), inv.user.value, w)
  {
    hide Inv, ReportBuilder.BuildReport, ItemRows, ReportFits, ReportLaws.ListForPeriod, FirstRow,
         ReportService.Outcome, CompleteRun, WithReport, WithRun;
    var a1, s1 := Starts(sha, s, i, w.runId, w.createdAt);
    StartedCan(sha, s, s1, i, w);
    var a2, s2 := BuildsUp(sha, s1, i, w.rows, w.clocks, report);
    var a3, s3 := Finishes(sha, s2, i, w.finishedAt, w.exports);
    RunsConcat(sha, s1, a2, s2, a3, s3);
    RunsConcat(sha, s, a1, s1, a2 + a3, s3);
    acts, t := a1 + (a2 + a3), s3;
    OutcomeIs(sha, s, i, w, report);
  }

  lemma StartedCan(sha: string -> string, s: State, t: State, i: nat, w: ReportService.World)
    requires In(s, i) && s.invs[i].user.Some?
    requires t.db == WithRun(s.db, w.runId, FirstRow(sha, s.invs[i], s.invs[i].user.value, w.createdAt))
    ensures t.db.transactions == s.db.transactions && w.runId in t.db.runs
    ensures t.db.runs[w.runId] == FirstRow(sha, s.invs[i], s.invs[i].user.value, w.createdAt)
  {
  }

  lemma OutcomeIs(sha: string -> string, s: State, i: nat, w: ReportService.World, report: ReportBuilder.Report)
    requires Inv(sha, s) && Smooth(sha, s, i, w, report) && s.invs[i].user.Some?
    ensures var inv := s.invs[i];
            var first := FirstRow(sha, inv, inv.user.value, w.createdAt);
            ReportService.Outcome(sha, s.db, inv.period, RuleSetOf(inv.version), inv.user.value, w)
            == WithReport(WithRun(s.db, w.runId, first), w.runId,
                          CompleteRun(first, report, w.finishedAt, w.exports), report)
  {
    hide Global, PhaseOk, Timely, ReportBuilder.BuildReport, ItemRows, ReportFits,
         ReportLaws.ListForPeriod;
    assert Local(sha, s, i);
    assert RuleSetOf(s.invs[i].version).version == s.invs[i].version;
  }

  /** No completed run answers for the key of invocation `i`; failed and running ones may. */
  ghost predicate NothingCompleted(s: State, i: nat, user: UserId)
    requires In(s, i)
  {
    LatestCompleted(s.db, s.invs[i].period, s.invs[i].version, user, None)
  }

  /**
   A retry is never blocked: if nothing is completed yet, a new invocation that has found the
   account and is left alone ends with a completed run, whatever failed and stuck runs there are.
   */
  lemma RetryGoesThrough(
    sha: string -> string, s: State, i: nat, user: UserId, w: ReportService.World, report: ReportBuilder.Report)
    returns (t: State)
    requires Reachable(sha, s) && Smooth(sha, s, i, w, report) && s.invs[i].phase.Begun?
    requires IsAccount(s.db, user) && NothingCompleted(s, i, user)
    ensures Reachable(sha, t) && In(t, i) && t.invs[i].phase == Done(w.runId)
    ensures ProtocolLaws.ServiceReport(t, w.runId)
    ensures t.db == ReportService.Outcome(sha, s.db, s.invs[i].period, RuleSetOf(s.invs[i].version), user, w)
    ensures forall id :: id in s.db.runs ==> id in t.db.runs && t.db.runs[id] == s.db.runs[id]
  {
    hide Reachable, ReportService.Outcome, ReportFits, Builds, ReportLaws.ListForPeriod, Runs,
         LatestCompleted;
    var found := FindAccount(i, Some(user));
    var s1 := DoFindAccount(s, i, Some(user));
    NoSteps(sha, s1);
    RunsCons(sha, s, found, [], s1);
    ReachOn(sha, s, [found] + [], s1);
    SmoothOn(sha, s, s1, i, w, report);
    t := IdentifiedGoesThrough(sha, s1, i, user, w, report);
  }

  lemma NoSteps(sha: string -> string, s: State)
    ensures Runs(sha, s, [], s)
  {
  }

  lemma TwoSteps(sha: string -> string, s: State, a: Action, b: Action)
    requires CanDo(sha, s, a) && CanDo(sha, Do(sha, s, a), b)
    ensures Runs(sha, s, [a, b], Do(sha, Do(sha, s, a), b))
  {
    hide CanDo, Do;
    var t := Do(sha, Do(sha, s, a), b);
    RunsCons(sha, Do(sha, s, a), b, [], t);
    assert [b] + [] == [b];
    RunsCons(sha, s, a, [b], t);
    assert [a] + [b] == [a, b];
  }

  lemma SmoothOn(
    sha: string -> string, s: State, t: State, i: nat, w: ReportService.World, report: ReportBuilder.Report)
    requires Smooth(sha, s, i, w, report) && t.db == s.db && t.owner == s.owner && In(t, i)
    requires t.invs[i].period == s.invs[i].period && t.invs[i].version == s.invs[i].version
    ensures Smooth(sha, t, i, w, report)
  {
    hide ReportFits, ReportLaws.ListForPeriod, ReportBuilder.BuildReport, RuleSetOf;
  }

  lemma Settled(
    sha: string -> string, s: State, i: nat, user: UserId, w: ReportService.World, report: ReportBuilder.Report, t: State)
    requires Inv(sha, s) && Smooth(sha, s, i, w, report) && IsAccount(s.db, user)
    requires t.db == ReportService.Outcome(sha, s.db, s.invs[i].period, RuleSetOf(s.invs[i].version), user, w)
    ensures ProtocolLaws.ServiceReport(t, w.runId)
    ensures forall id :: id in s.db.runs ==> id in t.db.runs && t.db.runs[id] == s.db.runs[id]
  {
    hide Local, RunOk, NoRows, UniqueEmails, ReportFits, ReportLaws.ListForPeriod, ReportBuilder.BuildReport,
         RuleSetOf, ItemRows, ReportService.Outcome, Rules.RuleSetText;
    assert !ReportService.StartRaises(w);
    assert !ReportService.WorkFails(sha, s.invs[i].period, RuleSetOf(s.invs[i].version), w);
    OutcomeKeeps(sha, s.db, s.invs[i].period, RuleSetOf(s.invs[i].version), user, w);
  }

  /** From no account at all to an account created and committed. */
  lemma AccountIsCreated(sha: string -> string, s: State, i: nat, id: UserId) returns (acts: seq<Action>, t: State)
    requires Inv(sha, s) && In(s, i) && s.invs[i].phase.Begun? && NoAccount(s.db) && s.lock.None? && id !in s.taken
    ensures Runs(sha, s, acts, t) && Inv(sha, t) && OnlyMoved(s, t, i)
    ensures t.db == WithAccount(s.db, id) && t.owner == s.owner
    ensures t.invs[i].phase.Identified? && t.invs[i].user == Some(id)
  {
    hide Inv;
    var a, b, c := FindAccount(i, None), InsertAccount(i, id), CommitAccount(i);
    var s1 := DoFindAccount(s, i, None);
    var s2 := DoInsertAccount(s1, i, id);
    StepInv(sha, s, a);
    StepInv(sha, s1, b);
    StepInv(sha, s2, c);
    OneWriteCommits(s2.db, PutUser(id, ServiceUser()));
    t := DoCommitAccount(s2, i);
    BegunHasNoUser(sha, s, i);
    acts := [a, b] + [c];
    TwoSteps(sha, s, a, b);
    RunsCons(sha, s2, c, [], t);
    assert [c] + [] == [c];
    RunsConcat(sha, s, [a, b], s2, [c], t);
  }

  lemma BegunHasNoUser(sha: string -> string, s: State, i: nat)
    requires Inv(sha, s) && In(s, i) && s.invs[i].phase.Begun?
    ensures s.invs[i].user.None?
  {
    hide Global, CheckedBefore;
    assert Local(sha, s, i);
  }

  /** A user that did not exist has no runs. */
  lemma NewUserHasNoRuns(sha: string -> string, s: State, i: nat, id: UserId)
    requires Inv(sha, s) && In(s, i) && id !in s.db.users
    ensures NothingCompleted(s, i, id)
  {
    hide Inv;
    forall run | run in s.db.runs
      ensures s.db.runs[run].user != id
    {
      RunUserExists(sha, s, run);
    }
  }

  lemma RunUserExists(sha: string -> string, s: State, run: RunId)
    requires Inv(sha, s) && run in s.db.runs
    ensures s.db.runs[run].user in s.db.users
  {
    hide PhaseOk, Timely, RunOk, NoRows, UniqueEmails, Belongs, Identity;
    assert RunOk(sha, s, run) && Local(sha, s, s.owner[run]);
    var inv := s.invs[s.owner[run]];
    OwnerUser(sha, s, run);
    UserKnown(s, inv);
  }

  lemma OwnerUser(sha: string -> string, s: State, run: RunId)
    requires run in s.db.runs && run in s.owner && s.owner[run] < |s.invs| && RunOk(sha, s, run)
    ensures s.invs[s.owner[run]].user == Some(s.db.runs[run].user)
  {
    hide Shows, NoRows, Untouched, RuleSetOf, Rules.RuleSetText;
  }

  lemma UserKnown(s: State, inv: Invocation)
    requires Identity(s, inv) && inv.user.Some?
    ensures inv.user.value in s.db.users
  {
  }

  /**
   The very first scheduled run goes through too: left alone, it creates the account and ends
   completed, with the effect of the use case run by itself.
   */
  lemma FirstRunGoesThrough(
    sha: string -> string, s: State, i: nat, id: UserId, w: ReportService.World, report: ReportBuilder.Report)
    returns (t: State)
    requires Reachable(sha, s) && Smooth(sha, s, i, w, report) && s.invs[i].phase.Begun?
    requires NoAccount(s.db) && s.lock.None? && id !in s.taken
    ensures Reachable(sha, t) && In(t, i) && t.invs[i].phase == Done(w.runId)
    ensures ProtocolLaws.ServiceReport(t, w.runId) && IsAccount(t.db, id)
    ensures var inv := s.invs[i];
            t.db == ReportService.Outcome(sha, WithAccount(s.db, id), inv.period, RuleSetOf(inv.version), id, w)
  {
    hide Inv, Reachable, ReportService.Outcome, ReportFits, Builds, ReportLaws.ListForPeriod, Runs,
         LatestCompleted, NoAccount;
    ReachableInv(sha, s);
    var created, s1 := AccountIsCreated(sha, s, i, id);
    ReachOn(sha, s, created, s1);
    IdNotUsed(sha, s, id);
    NewUserHasNoRuns(sha, s, i, id);
    AccountKeepsRuns(s, s1, i, id);
    SmoothAfterAccount(sha, s, s1, i, w, report);
    t := IdentifiedGoesThrough(sha, s1, i, id, w, report);
  }

  lemma IdNotUsed(sha: string -> string, s: State, id: UserId)
    requires Inv(sha, s) && id !in s.taken
    ensures id !in s.db.users
  {
    hide Local, RunOk, NoRows, UniqueEmails;
  }

  lemma AccountKeepsRuns(s: State, t: State, i: nat, id: UserId)
    requires In(s, i) && NothingCompleted(s, i, id) && OnlyMoved(s, t, i) && t.db == WithAccount(s.db, id)
    ensures NothingCompleted(t, i, id)
  {
  }

  lemma SmoothAfterAccount(
    sha: string -> string, s: State, t: State, i: nat, w: ReportService.World, report: ReportBuilder.Report)
    requires Smooth(sha, s, i, w, report) && t.db.transactions == s.db.transactions && t.owner == s.owner
    requires OnlyMoved(s, t, i)
    ensures Smooth(sha, t, i, w, report)
  {
    hide ReportFits, ReportLaws.ListForPeriod, ReportBuilder.BuildReport, RuleSetOf;
  }

  /** From a known account with nothing completed to a completed run. */
  lemma IdentifiedGoesThrough(
    sha: string -> string, s: State, i: nat, user: UserId, w: ReportService.World, report: ReportBuilder.Report)
    returns (t: State)
    requires Reachable(sha, s) && Smooth(sha, s, i, w, report) && s.invs[i].phase.Identified?
    requires s.invs[i].user == Some(user) && IsAccount(s.db, user) && NothingCompleted(s, i, user)
    ensures Reachable(sha, t) && OnlyMoved(s, t, i) && t.invs[i].phase == Done(w.runId)
    ensures ProtocolLaws.ServiceReport(t, w.runId) && IsAccount(t.db, user)
    ensures t.db == ReportService.Outcome(sha, s.db, s.invs[i].period, RuleSetOf(s.invs[i].version), user, w)
    ensures forall id :: id in s.db.runs ==> id in t.db.runs && t.db.runs[id] == s.db.runs[id]
  {
    hide Inv, Reachable, ReportService.Outcome, ReportFits, Builds, ReportLaws.ListForPeriod, Runs,
         LatestCompleted;
    ReachableInv(sha, s);
    var s1 := DoCheck(s, i, None);
    StepInv(sha, s, Check(i, None));
    SmoothOn(sha, s, s1, i, w, report);
    var acts, last := GenerationGoesThrough(sha, s1, i, w, report);
    t := last;
    RunsCons(sha, s, Check(i, None), acts, t);
    ReachOn(sha, s, [Check(i, None)] + acts, t);
    Settled(sha, s, i, user, w, report, t);
    OutcomeAnswers(sha, s, i, user, w, report);
  }

  lemma OutcomeAnswers(
    sha: string -> string, s: State, i: nat, user: UserId, w: ReportService.World, report: ReportBuilder.Report)
    requires Inv(sha, s) && Smooth(sha, s, i, w, report)
    ensures var t := ReportService.Outcome(sha, s.db, s.invs[i].period, RuleSetOf(s.invs[i].version), user, w);
            && t.transactions == s.db.transactions && t.users == s.db.users
            && w.runId in t.runs
            && Answers(t.runs[w.runId], s.invs[i].period, RuleSetOf(s.invs[i].version).version, user)
  {
    hide Local, RunOk, NoRows, UniqueEmails, ReportFits, ReportLaws.ListForPeriod, ReportBuilder.BuildReport,
         RuleSetOf, ItemRows, ReportService.Outcome, Rules.RuleSetText;
    assert !ReportService.StartRaises(w);
    assert !ReportService.WorkFails(sha, s.invs[i].period, RuleSetOf(s.invs[i].version), w);
    OutcomeKeeps(sha, s.db, s.invs[i].period, RuleSetOf(s.invs[i].version), user, w);
  }

  // ---- Every outcome of the use case ----

  /** After the RUNNING row is committed and before the final commit. */
  predicate InTheTry(p: Phase) {
    p.Started? || p.Loaded? || p.Built? || p.Marked?
  }

  /** An exception whose handler raises too: the row stays RUNNING. */
  lemma FailureIsLost(sha: string -> string, s: State, i: nat) returns (acts: seq<Action>, t: State)
    requires In(s, i) && InTheTry(s.invs[i].phase)
    ensures Runs(sha, s, acts, t) && OnlyMoved(s, t, i) && t.invs[i].phase == Gone && t.db == s.db
  {
    var s1 := DoRaise(s, i);
    t := DoVanish(s1, i);
    acts := [Raise(i), Vanish(i)];
    TwoSteps(sha, s, Raise(i), Vanish(i));
  }

  /** A crash is possible at any point: the database stays as committed, and no index entry is held. */
  lemma CrashKeepsCommitted(sha: string -> string, s: State, i: nat) returns (t: State)
    requires In(s, i)
    requires var p := s.invs[i].phase; !p.Reusing? && !p.Done? && !p.Handled? && !p.Gone?
    ensures Runs(sha, s, [Vanish(i)], t) && OnlyMoved(s, t, i)
    ensures t.db == s.db && t.invs[i].phase == Gone && t.lock != Some(i)
  {
    t := DoVanish(s, i);
    NoSteps(sha, t);
    RunsCons(sha, s, Vanish(i), [], t);
    assert [Vanish(i)] + [] == [Vanish(i)];
  }

  /** Storable rows can be ingested and free addresses signed up at any time. */
  lemma OthersActAnytime(
    sha: string -> string, s: State, batch: seq<Transaction>, account: UserId, user: User) returns (t: State)
    requires AllStorable(batch) && account !in s.taken
    requires user.email != "system@compliance.local" && EmailFree(s.db, user.email)
    ensures Runs(sha, s, [Ingest(batch), SignUp(account, user)], t) && t.invs == s.invs
    ensures t.db == s.db.(transactions := s.db.transactions + batch, users := s.db.users[account := user])
  {
    var a, b := Ingest(batch), SignUp(account, user);
    t := DoSignUp(DoIngest(s, batch), account, user);
    TwoSteps(sha, s, a, b);
  }

  /** Events and active users can ask for a report at any time, under any registered version. */
  lemma AnyoneCanInvoke(sha: string -> string, s: State, period: Calendar.Period, caller: Option<UserId>) returns (t: State)
    requires caller.Some? ==> caller.value in s.db.users && s.db.users[caller.value].active
    ensures var origin := if caller.Some? then ByApi else ByEvent;
            Runs(sha, s, [Invoke(origin, period, "v1", caller)], t)
    ensures t.db == s.db && |t.invs| == |s.invs| + 1 && t.invs[..|s.invs|] == s.invs
    ensures var inv := t.invs[|s.invs|];
            && inv.period == period && inv.user == caller && inv.pending == []
            && inv.phase == if caller.Some? then Cleared else Begun
  {
    var origin := if caller.Some? then ByApi else ByEvent;
    var a := Invoke(origin, period, "v1", caller);
    t := DoInvoke(s, origin, period, "v1", caller);
    NoSteps(sha, t);
    RunsCons(sha, s, a, [], t);
    assert [a] + [] == [a];
  }

  /** An exception that is handled, at any point of the work: the row becomes FAILED. */
  lemma FailureIsHandled(sha: string -> string, s: State, i: nat, message: string, at: int)
    returns (acts: seq<Action>, t: State)
    requires In(s, i) && InTheTry(s.invs[i].phase) && s.invs[i].phase.run in s.db.runs
    ensures Runs(sha, s, acts, t) && OnlyMoved(s, t, i) && t.invs[i].phase == Handled(s.invs[i].phase.run)
    ensures var run := s.invs[i].phase.run;
            t.db == WithRun(s.db, run, FailRun(s.db.runs[run], message, at))
  {
    hide FailRun, Runs, InTheTry;
    var s2 := FailureIsMarked(sha, s, i, message, at);
    t := FailureCommits(sha, s2, i);
    acts := [Raise(i), MarkFailed(i, message, at)] + [CommitFailure(i)];
    RunsConcat(sha, s, [Raise(i), MarkFailed(i, message, at)], s2, [CommitFailure(i)], t);
  }

  lemma FailureIsMarked(sha: string -> string, s: State, i: nat, message: string, at: int) returns (t: State)
    requires In(s, i) && InTheTry(s.invs[i].phase) && s.invs[i].phase.run in s.db.runs
    ensures Runs(sha, s, [Raise(i), MarkFailed(i, message, at)], t) && OnlyMoved(s, t, i) && t.db == s.db
    ensures var run := s.invs[i].phase.run;
            && t.invs[i].phase == FailMarked(run)
            && t.invs[i].pending == [PutRun(run, FailRun(s.db.runs[run], message, at))]
  {
    hide FailRun;
    t := DoMarkFailed(DoRaise(s, i), i, message, at);
    TwoSteps(sha, s, Raise(i), MarkFailed(i, message, at));
  }

  lemma FailureCommits(sha: string -> string, s: State, i: nat) returns (t: State)
    requires CanCommitFailure(s, i) && |s.invs[i].pending| == 1 && s.invs[i].pending[0].PutRun?
    ensures Runs(sha, s, [CommitFailure(i)], t) && OnlyMoved(s, t, i)
    ensures t.invs[i].phase == Handled(s.invs[i].phase.run)
    ensures t.db == WithRun(s.db, s.invs[i].pending[0].runId, s.invs[i].pending[0].run)
  {
    t := DoCommitFailure(s, i);
    var w := s.invs[i].pending[0];
    assert s.invs[i].pending == [w];
    OneWriteCommits(s.db, w);
    NoSteps(sha, t);
    RunsCons(sha, s, CommitFailure(i), [], t);
    assert [CommitFailure(i)] + [] == [CommitFailure(i)];
  }

  /** Where an invocation ends up in each outcome of the use case. */
  function EndPhase(sha: string -> string, inv: Invocation, w: ReportService.World): Phase
    requires |w.clocks.perTransaction| == |w.rows|
  {
    if ReportService.StartRaises(w) then Gone
    else if !ReportService.WorkFails(sha, inv.period, RuleSetOf(inv.version), w) then Done(w.runId)
    else if ReportService.HandlerRaises(w) then Gone
    else Handled(w.runId)
  }

  /**
   The use case run by itself is a run of the protocol, whichever calls raise: in any state of the
   others, one invocation past its check can take steps that end in exactly the database the use
   case leaves behind.
   */
  lemma GenerationIsARun(sha: string -> string, s: State, i: nat, w: ReportService.World)
    returns (acts: seq<Action>, t: State)
    requires Inv(sha, s) && In(s, i) && s.invs[i].phase.Cleared? && s.invs[i].user.Some?
    requires w.runId !in s.owner && |w.clocks.perTransaction| == |w.rows|
    requires ReportLaws.ListForPeriod(s.db.transactions, Calendar.Window(s.invs[i].period), w.rows)
    ensures Runs(sha, s, acts, t) && OnlyMoved(s, t, i) && t.invs[i].phase == EndPhase(sha, s.invs[i], w)
    ensures var inv := s.invs[i];
            t.db == ReportService.Outcome(sha, s.db, inv.period, RuleSetOf(inv.version), inv.user.value, w)
  {
    hide Inv, ReportService.Outcome, ReportService.WorkFails, ReportLaws.ListForPeriod, FirstRow, RuleSetOf;
    var inv := s.invs[i];
    if ReportService.StartRaises(w) {
      t := DoVanish(s, i);
      NoSteps(sha, t);
      RunsCons(sha, s, Vanish(i), [], t);
      acts := [Vanish(i)] + [];
      RefusedOutcome(sha, s, i, w);
    } else if !ReportService.WorkFails(sha, inv.period, RuleSetOf(inv.version), w) {
      var report := SmoothWorld(sha, s, i, w);
      acts, t := GenerationGoesThrough(sha, s, i, w, report);
    } else {
      acts, t := FailureIsARun(sha, s, i, w);
      FailedOutcome(sha, s, i, w);
    }
  }

  lemma FailureIsARun(sha: string -> string, s: State, i: nat, w: ReportService.World)
    returns (acts: seq<Action>, t: State)
    requires In(s, i) && s.invs[i].phase.Cleared? && s.invs[i].user.Some? && w.runId !in s.owner
    ensures Runs(sha, s, acts, t) && OnlyMoved(s, t, i)
    ensures t.invs[i].phase == if ReportService.HandlerRaises(w) then Gone else Handled(w.runId)
    ensures var first := FirstRow(sha, s.invs[i], s.invs[i].user.value, w.createdAt);
            t.db == if ReportService.HandlerRaises(w) then WithRun(s.db, w.runId, first)
                    else WithRun(WithRun(s.db, w.runId, first), w.runId, FailRun(first, w.message, w.finishedAt))
  {
    hide FirstRow, FailRun, Runs, ReportService.HandlerRaises;
    var a, s1 := Starts(sha, s, i, w.runId, w.createdAt);
    StartedCan(sha, s, s1, i, w);
    var b, s2;
    if ReportService.HandlerRaises(w) {
      b, s2 := FailureIsLost(sha, s1, i);
    } else {
      b, s2 := FailureIsHandled(sha, s1, i, w.message, w.finishedAt);
    }
    acts, t := a + b, s2;
    RunsConcat(sha, s, a, s1, b, t);
  }

  lemma RefusedOutcome(sha: string -> string, s: State, i: nat, w: ReportService.World)
    requires In(s, i) && s.invs[i].user.Some? && |w.clocks.perTransaction| == |w.rows| && ReportService.StartRaises(w)
    ensures var inv := s.invs[i];
            ReportService.Outcome(sha, s.db, inv.period, RuleSetOf(inv.version), inv.user.value, w) == s.db
  {
    hide ReportService.WorkFails;
  }

  lemma SmoothWorld(sha: string -> string, s: State, i: nat, w: ReportService.World)
    returns (report: ReportBuilder.Report)
    requires In(s, i) && w.runId !in s.owner && |w.clocks.perTransaction| == |w.rows|
    requires ReportLaws.ListForPeriod(s.db.transactions, Calendar.Window(s.invs[i].period), w.rows)
    requires !ReportService.StartRaises(w)
    requires !ReportService.WorkFails(sha, s.invs[i].period, RuleSetOf(s.invs[i].version), w)
    ensures Smooth(sha, s, i, w, report)
  {
    hide ReportBuilder.BuildReport, ReportFits, ReportLaws.ListForPeriod;
    report := ReportBuilder.BuildReport(sha, w.rows, RuleSetOf(s.invs[i].version), s.invs[i].period, w.clocks).value;
  }

  lemma FailedOutcome(sha: string -> string, s: State, i: nat, w: ReportService.World)
    requires Inv(sha, s) && In(s, i) && s.invs[i].user.Some? && |w.clocks.perTransaction| == |w.rows|
    requires !ReportService.StartRaises(w)
    requires ReportService.WorkFails(sha, s.invs[i].period, RuleSetOf(s.invs[i].version), w)
    ensures var inv := s.invs[i];
            var first := FirstRow(sha, inv, inv.user.value, w.createdAt);
            ReportService.Outcome(sha, s.db, inv.period, RuleSetOf(inv.version), inv.user.value, w)
            == if ReportService.HandlerRaises(w) then WithRun(s.db, w.runId, first)
               else WithRun(WithRun(s.db, w.runId, first), w.runId, FailRun(first, w.message, w.finishedAt))
  {
    hide Global, PhaseOk, Timely, ReportService.WorkFails;
    assert Local(sha, s, i);
    assert RuleSetOf(s.invs[i].version).version == s.invs[i].version;
  }
}
