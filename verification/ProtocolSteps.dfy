/**
 Every action of the report-run protocol keeps the invariant.
 */
module ProtocolSteps {
  import opened Base
  import opened Protocol
  import opened ProtocolInvariant
  import opened ScheduledReport
  import opened Store
  import opened Transactions
  import Calendar
  import ReportBuilder
  import ReportLaws
  import Rules

  // ---- Actions that change one invocation only ----

  lemma CheckedBeforeMoves(s: State, i: nat, inv: Invocation)
    requires In(s, i) && CheckedBefore(s, i) && SameCall(s.invs[i], inv) && inv.readAt == s.invs[i].readAt
    ensures CheckedBefore(Move(s, i, inv), i)
  {
  }

  lemma FindAccountKeeps(sha: string -> string, s: State, who: nat, seen: Option<UserId>)
    requires Inv(sha, s) && In(s, who) && AccountRead(s.db, seen)
    requires s.invs[who].phase.Begun? || (s.invs[who].phase.Refused? && seen.Some?)
    ensures Inv(sha, DoFindAccount(s, who, seen)) && Evolves(s, DoFindAccount(s, who, seen), who)
  {
    hide Global, CheckedBefore;
    assert Local(sha, s, who);
    QuietKeeps(sha, s, who, DoFindAccount(s, who, seen).invs[who]);
  }

  lemma CheckKeeps(sha: string -> string, s: State, who: nat, found: Option<RunId>)
    requires Inv(sha, s) && CanCheck(s, who, found)
    ensures Inv(sha, DoCheck(s, who, found)) && Evolves(s, DoCheck(s, who, found), who)
  {
    hide RunOk, Builds, FromSnapshot, NoRows, UniqueEmails;
    assert Local(sha, s, who);
    var t := DoCheck(s, who, found);
    if found.Some? {
      CompletedRecorded(sha, s, found.value);
    } else {
      NothingAnswered(s, who);
    }
    QuietKeeps(sha, s, who, t.invs[who]);
  }

  lemma NothingAnswered(s: State, who: nat)
    requires CanCheck(s, who, None)
    ensures CheckedBefore(DoCheck(s, who, None), who)
  {
  }

  lemma CompletedRecorded(sha: string -> string, s: State, id: RunId)
    requires Global(sha, s) && id in s.db.runs && s.db.runs[id].status == Completed
    ensures id in s.completedAt && s.completedAt[id] < s.clock
  {
    hide Shows, NoRows, UniqueEmails, Belongs;
    assert RunOk(sha, s, id);
  }

  lemma LoadKeeps(sha: string -> string, s: State, who: nat, rows: seq<Transaction>)
    requires Inv(sha, s) && CanLoad(s, who, rows)
    ensures Inv(sha, DoLoad(s, who, rows)) && Evolves(s, DoLoad(s, who, rows), who)
  {
    hide Global, CheckedBefore, ReportLaws.ListForPeriod;
    assert Local(sha, s, who);
    var t := DoLoad(s, who, rows);
    CheckedBeforeMoves(s, who, t.invs[who]);
    assert s.db.transactions[..|s.db.transactions|] == s.db.transactions;
    QuietKeeps(sha, s, who, t.invs[who]);
  }

  lemma BuildKeeps(
    sha: string -> string, s: State, who: nat, clocks: ReportBuilder.Clocks, report: ReportBuilder.Report)
    requires Inv(sha, s) && CanBuild(sha, s, who, clocks, report)
    ensures Inv(sha, DoBuild(s, who, clocks, report)) && Evolves(s, DoBuild(s, who, clocks, report), who)
  {
    hide Global, CheckedBefore, ReportLaws.ListForPeriod, ReportBuilder.BuildReport, ItemRows, RuleSetOf;
    assert Local(sha, s, who);
    var t := DoBuild(s, who, clocks, report);
    CheckedBeforeMoves(s, who, t.invs[who]);
    QuietKeeps(sha, s, who, t.invs[who]);
  }

  lemma CompleteKeeps(sha: string -> string, s: State, who: nat, at: int, exports: Exports)
    requires Inv(sha, s) && CanComplete(s, who)
    ensures Inv(sha, DoComplete(s, who, at, exports)) && Evolves(s, DoComplete(s, who, at, exports), who)
  {
    hide Global, CheckedBefore, ReportBuilder.BuildReport, RuleSetOf, FromSnapshot, ItemRows,
         ReportFits, MarkedRow;
    assert Local(sha, s, who);
    var t := DoComplete(s, who, at, exports);
    var run, report := s.invs[who].phase.run, s.invs[who].phase.source.report;
    assert t.invs[who].pending == ReportWrites(run, CompleteRun(t.db.runs[run], report, at, exports), report);
    MarkedRowHolds(t, t.invs[who], run, report, at, exports);
    CheckedBeforeMoves(s, who, t.invs[who]);
    QuietKeeps(sha, s, who, t.invs[who]);
  }

  lemma MarkedRowHolds(
    t: State, inv: Invocation, run: RunId, report: ReportBuilder.Report, at: int, exports: Exports)
    requires run in t.db.runs
    requires inv.pending == ReportWrites(run, CompleteRun(t.db.runs[run], report, at, exports), report)
    ensures MarkedRow(t, inv, run, report)
  {
    hide ItemRows;
  }

  lemma RaiseKeeps(sha: string -> string, s: State, who: nat)
    requires Inv(sha, s) && CanRaise(s, who)
    ensures Inv(sha, DoRaise(s, who)) && Evolves(s, DoRaise(s, who), who)
  {
    hide Global, CheckedBefore, Builds, FromSnapshot, ItemRows, ReportFits, MarkedRow,
         ReportLaws.ListForPeriod;
    assert Local(sha, s, who);
    CheckedBeforeMoves(s, who, DoRaise(s, who).invs[who]);
    QuietKeeps(sha, s, who, DoRaise(s, who).invs[who]);
  }

  lemma MarkFailedKeeps(sha: string -> string, s: State, who: nat, message: string, at: int)
    requires Inv(sha, s) && CanMarkFailed(s, who)
    ensures Inv(sha, DoMarkFailed(s, who, message, at)) && Evolves(s, DoMarkFailed(s, who, message, at), who)
  {
    hide Global, CheckedBefore;
    assert Local(sha, s, who);
    CheckedBeforeMoves(s, who, DoMarkFailed(s, who, message, at).invs[who]);
    QuietKeeps(sha, s, who, DoMarkFailed(s, who, message, at).invs[who]);
  }

  lemma VanishKeeps(sha: string -> string, s: State, who: nat)
    requires Inv(sha, s) && CanVanish(s, who)
    ensures Inv(sha, DoVanish(s, who)) && Evolves(s, DoVanish(s, who), who)
  {
    hide Global, CheckedBefore, PhaseOk, Evolves;
    assert Local(sha, s, who);
    var t := DoVanish(s, who);
    GoneIsOk(sha, s, who);
    QuietEvolves(s, t, who);
    LockAfterVanish(sha, s, who);
    QuietGlobal(sha, s, t, who);
    StepKeeps(sha, s, t, who);
  }

  lemma ReadersChecked(sha: string -> string, s: State, who: nat)
    requires In(s, who) && PhaseOk(sha, s, who) && !s.invs[who].phase.Reusing? && s.invs[who].readAt.Some?
    ensures CheckedBefore(s, who)
  {
    hide CheckedBefore, Builds, FromSnapshot, ItemRows, ReportFits, MarkedRow, FailedRow, CreatedRow,
         ReportLaws.ListForPeriod, StillRunning, Owns;
  }

  lemma GoneIsOk(sha: string -> string, s: State, who: nat)
    requires In(s, who) && PhaseOk(sha, s, who) && !s.invs[who].phase.Ended()
    ensures PhaseOk(sha, DoVanish(s, who), who)
  {
    hide CheckedBefore;
    if s.invs[who].readAt.Some? {
      ReadersChecked(sha, s, who);
      GoneChecked(s, who);
    }
  }

  lemma GoneChecked(s: State, who: nat)
    requires In(s, who) && CheckedBefore(s, who)
    ensures CheckedBefore(DoVanish(s, who), who)
  {
  }

  lemma LockAfterVanish(sha: string -> string, s: State, who: nat)
    requires In(s, who)
    ensures DoVanish(s, who).lock == None || (DoVanish(s, who).lock == s.lock && s.lock != Some(who))
  {
  }

  // ---- The account ----

  lemma InsertAccountKeeps(sha: string -> string, s: State, who: nat, account: UserId)
    requires Inv(sha, s) && CanInsertAccount(s, who, account)
    ensures Inv(sha, DoInsertAccount(s, who, account)) && Evolves(s, DoInsertAccount(s, who, account), who)
  {
    hide CheckedBefore, RunOk, NoRows, UniqueEmails;
    assert Local(sha, s, who);
    var t := DoInsertAccount(s, who, account);
    if NoAccount(s.db) {
      InsertEvolves(s, who, account);
      InsertGlobal(sha, s, who, account);
      assert Local(sha, t, who);
      StepKeeps(sha, s, t, who);
    } else {
      QuietKeeps(sha, s, who, t.invs[who]);
    }
  }

  lemma InsertEvolves(s: State, who: nat, account: UserId)
    requires CanInsertAccount(s, who, account) && NoAccount(s.db)
    ensures Evolves(s, DoInsertAccount(s, who, account), who)
  {
  }

  lemma InsertGlobal(sha: string -> string, s: State, who: nat, account: UserId)
    requires Global(sha, s) && CanInsertAccount(s, who, account) && NoAccount(s.db)
    ensures Global(sha, DoInsertAccount(s, who, account))
  {
    hide RunOk, NoRows, UniqueEmails;
    var t := DoInsertAccount(s, who, account);
    forall id | id in t.db.runs
      ensures RunOk(sha, t, id)
    {
      assert SameRun(s, t, id);
      RunKept(sha, s, t, id);
    }
  }

  /** After the commit the account is the only one, and inactive. */
  lemma CommitAccountKeeps(sha: string -> string, s: State, who: nat)
    requires Inv(sha, s) && CanCommitAccount(s, who)
    ensures Inv(sha, DoCommitAccount(s, who)) && Evolves(s, DoCommitAccount(s, who), who)
  {
    hide CheckedBefore, Global;
    assert Local(sha, s, who);
    var t, id := DoCommitAccount(s, who), s.invs[who].phase.account;
    OneWriteCommits(s.db, s.invs[who].pending[0]);
    assert t.db == WithAccount(s.db, id);
    CommitAccountEvolves(s, t, who, id);
    CommitAccountGlobal(sha, s, t, who, id);
    assert Local(sha, t, who);
    StepKeeps(sha, s, t, who);
  }

  ghost predicate AccountCommitted(s: State, t: State, who: nat, id: UserId) {
    && In(s, who) && s.lock == Some(who) && id !in s.db.users && id in s.taken && NoAccount(s.db)
    && t == s.(db := WithAccount(s.db, id), invs := t.invs, clock := s.clock + 1, lock := None)
    && |t.invs| == |s.invs| && SameCall(s.invs[who], t.invs[who]) && !s.invs[who].phase.Ended()
    && forall j :: 0 <= j < |s.invs| && j != who ==> t.invs[j] == s.invs[j]
  }

  lemma CommitAccountEvolves(s: State, t: State, who: nat, id: UserId)
    requires AccountCommitted(s, t, who, id)
    ensures Evolves(s, t, who)
  {
  }

  lemma CommitAccountGlobal(sha: string -> string, s: State, t: State, who: nat, id: UserId)
    requires Global(sha, s) && AccountCommitted(s, t, who, id)
    ensures Global(sha, t)
  {
    hide RunOk;
    AccountAdded(s.db, id);
    forall run | run in t.db.runs
      ensures RunOk(sha, t, run)
    {
      assert SameRun(s, t, run);
      RunKept(sha, s, t, run);
    }
  }

  // ---- The run's row ----

  lemma CreateRunKeeps(sha: string -> string, s: State, who: nat, run: RunId, at: int)
    requires Inv(sha, s) && CanCreateRun(s, who, run)
    ensures Inv(sha, DoCreateRun(sha, s, who, run, at)) && Evolves(s, DoCreateRun(sha, s, who, run, at), who)
  {
    hide CheckedBefore, Global, RuleSetOf, Rules.RuleSetText;
    assert Local(sha, s, who);
    var t := DoCreateRun(sha, s, who, run, at);
    CreateRunGlobal(sha, s, t, who, run);
    CreateRunEvolves(sha, s, t, who, run);
    CreateRunChecked(s, t, who, run);
    assert Local(sha, t, who);
    StepKeeps(sha, s, t, who);
  }

  ghost predicate RunCreated(s: State, t: State, who: nat, run: RunId) {
    && In(s, who) && run !in s.owner && !s.invs[who].phase.Ended()
    && t == s.(owner := s.owner[run := who], invs := t.invs, clock := s.clock + 1)
    && |t.invs| == |s.invs| && SameCall(s.invs[who], t.invs[who]) && s.invs[who].readAt == t.invs[who].readAt
    && !s.invs[who].phase.Inserted?
    && forall j :: 0 <= j < |s.invs| && j != who ==> t.invs[j] == s.invs[j]
  }

  lemma CreateRunEvolves(sha: string -> string, s: State, t: State, who: nat, run: RunId)
    requires Global(sha, s) && RunCreated(s, t, who, run)
    ensures Evolves(s, t, who)
  {
    hide RunOk, NoRows, UniqueEmails;
  }

  lemma CreateRunChecked(s: State, t: State, who: nat, run: RunId)
    requires RunCreated(s, t, who, run) && CheckedBefore(s, who)
    requires forall id :: id in s.completedAt ==> id in s.owner
    ensures CheckedBefore(t, who)
  {
  }

  lemma CreateRunGlobal(sha: string -> string, s: State, t: State, who: nat, run: RunId)
    requires Global(sha, s) && RunCreated(s, t, who, run)
    ensures Global(sha, t)
    ensures forall id :: id in s.completedAt ==> id in s.owner
    ensures run !in s.db.runs
  {
    hide RunOk, NoRows, UniqueEmails;
    forall id | id in t.db.runs
      ensures RunOk(sha, t, id)
    {
      assert id in s.owner && id != run;
      assert SameRun(s, t, id);
      RunKept(sha, s, t, id);
    }
  }

  /** One run's row and rows changed by its owner; everything else as it was. */
  ghost predicate RunWritten(s: State, t: State, who: nat, run: RunId) {
    && In(s, who) && Owns(s, who, run) && !s.invs[who].phase.Ended()
    && t.owner == s.owner && t.taken == s.taken && t.lock == s.lock && t.clock == s.clock + 1
    && t.db.users == s.db.users && t.db.transactions == s.db.transactions
    && t.db.runs.Keys == s.db.runs.Keys + {run}
    && |t.invs| == |s.invs| && SameCall(s.invs[who], t.invs[who])
    && (forall j :: 0 <= j < |s.invs| && j != who ==> t.invs[j] == s.invs[j])
    && (forall id :: id != run ==> SameRun(s, t, id))
    && run !in s.completedAt
    && (t.completedAt == s.completedAt
        || (t.completedAt == s.completedAt[run := s.clock] && t.db.runs[run].status == Completed))
  }

  lemma WrittenEvolves(s: State, t: State, who: nat, run: RunId)
    requires RunWritten(s, t, who, run)
    requires forall id :: id in s.completedAt ==> id in s.db.runs
    ensures Evolves(s, t, who)
  {
    assert UsersGrow(s, t, who);
    forall id | id in s.completedAt
      ensures id in t.db.runs && t.db.runs[id] == s.db.runs[id]
    {
      assert SameRun(s, t, id);
    }
  }

  lemma WrittenGlobal(sha: string -> string, s: State, t: State, who: nat, run: RunId)
    requires Global(sha, s) && RunWritten(s, t, who, run) && RunOk(sha, t, run) && !s.invs[who].phase.Inserted?
    ensures Global(sha, t)
  {
    hide RunOk;
    forall id | id in t.db.runs
      ensures RunOk(sha, t, id)
    {
      if id != run {
        RunKept(sha, s, t, id);
      }
    }
    forall id | id in t.completedAt
      ensures id in t.db.runs && t.db.runs[id].status == Completed && t.completedAt[id] < t.clock
    {
      assert id != run ==> SameRun(s, t, id);
    }
    assert forall id :: id !in t.db.runs ==> SameRun(s, t, id);
  }

  /** Only the owner's own run changed, so what it checked before still stands. */
  lemma WrittenChecked(s: State, t: State, who: nat, run: RunId)
    requires RunWritten(s, t, who, run) && CheckedBefore(s, who) && s.invs[who].readAt == t.invs[who].readAt
    requires forall id :: id in s.completedAt ==> id in s.db.runs && id in s.owner
    ensures CheckedBefore(t, who)
  {
    forall id | id in t.completedAt && id != run
      ensures id in s.completedAt && id in s.db.runs
      ensures t.completedAt[id] == s.completedAt[id] && t.db.runs[id] == s.db.runs[id]
    {
      assert SameRun(s, t, id);
    }
  }

  lemma NotYetCompleted(sha: string -> string, s: State, run: RunId)
    requires Global(sha, s)
    requires run in s.db.runs ==> s.db.runs[run].status != Completed
    ensures run !in s.completedAt
  {
    hide RunOk, UniqueEmails, NoRows;
  }

  // ---- The three commits of a generation ----

  lemma RecordsExist(sha: string -> string, s: State)
    requires Global(sha, s)
    ensures forall id :: id in s.completedAt ==> id in s.db.runs && id in s.owner
  {
    hide RunOk, UniqueEmails, NoRows;
  }

  lemma CreatedFacts(sha: string -> string, s: State, who: nat) returns (run: RunId, row: Run)
    requires Inv(sha, s) && CanCommitStart(s, who)
    ensures run == s.invs[who].phase.run && Owns(s, who, run) && run !in s.db.runs && CheckedBefore(s, who)
    ensures s.invs[who].pending == [PutRun(run, row)] && s.invs[who].user.Some?
    ensures row == FirstRow(sha, s.invs[who], s.invs[who].user.value, row.createdAt)
    ensures DoCommitStart(s, who).db == WithRun(s.db, run, row)
  {
    hide CheckedBefore, Global, FirstRow;
    assert Local(sha, s, who);
    run, row := s.invs[who].phase.run, s.invs[who].pending[0].run;
    OneWriteCommits(s.db, s.invs[who].pending[0]);
    assert s.invs[who].pending == [PutRun(run, row)];
  }

  lemma CommitStartKeeps(sha: string -> string, s: State, who: nat)
    requires Inv(sha, s) && CanCommitStart(s, who)
    ensures Inv(sha, DoCommitStart(s, who)) && Evolves(s, DoCommitStart(s, who), who)
  {
    hide CheckedBefore, Global, Local, PhaseOk, RuleSetOf, Rules.RuleSetText, Evolves, RunOk, ApplyAll;
    assert Local(sha, s, who);
    var t := DoCommitStart(s, who);
    var run, row := CreatedFacts(sha, s, who);
    RecordsExist(sha, s);
    RunRowWritten(s, t, who, run, row);
    WrittenEvolves(s, t, who, run);
    WrittenChecked(s, t, who, run);
    StartedRowOk(sha, s, t, who, run);
    WrittenGlobal(sha, s, t, who, run);
    StartedLocal(sha, s, t, who, run);
    StepKeeps(sha, s, t, who);
  }

  lemma StartedLocal(sha: string -> string, s: State, t: State, who: nat, run: RunId)
    requires RunWritten(s, t, who, run) && Local(sha, s, who) && s.invs[who].phase.Created? && CheckedBefore(t, who)
    requires t.invs[who] == s.invs[who].(phase := Started(run), pending := [])
    requires t.db.runs[run].status == Running
    ensures Local(sha, t, who)
  {
    hide CheckedBefore, FirstRow;
  }

  /** What a commit of one run row amounts to. */
  lemma RunRowWritten(s: State, t: State, who: nat, run: RunId, row: Run)
    requires In(s, who) && Owns(s, who, run) && !s.invs[who].phase.Ended() && run !in s.completedAt
    requires |t.invs| == |s.invs| && SameCall(s.invs[who], t.invs[who])
    requires forall j :: 0 <= j < |s.invs| && j != who ==> t.invs[j] == s.invs[j]
    requires t == s.(db := WithRun(s.db, run, row), invs := t.invs, clock := s.clock + 1)
    ensures RunWritten(s, t, who, run)
  {
  }

  lemma StartedRowOk(sha: string -> string, s: State, t: State, who: nat, run: RunId)
    requires Global(sha, s) && In(s, who) && Owns(s, who, run) && run !in s.db.runs && s.invs[who].user.Some?
    requires t.owner == s.owner && In(t, who) && SameCall(s.invs[who], t.invs[who])
    requires run in t.db.runs
    requires t.db.runs[run] == FirstRow(sha, s.invs[who], s.invs[who].user.value, t.db.runs[run].createdAt)
    requires t.db.items == s.db.items && t.db.audit == s.db.audit
    ensures RunOk(sha, t, run)
  {
    hide RuleSetOf, Rules.RuleSetText, UniqueEmails;
    assert NoRows(s.db, run);
  }

  lemma CommitFailureKeeps(sha: string -> string, s: State, who: nat)
    requires Inv(sha, s) && CanCommitFailure(s, who)
    ensures Inv(sha, DoCommitFailure(s, who)) && Evolves(s, DoCommitFailure(s, who), who)
  {
    hide CheckedBefore, Global, FailRun;
    assert Local(sha, s, who);
    var t, run, row := DoCommitFailure(s, who), s.invs[who].phase.run, s.invs[who].pending[0].run;
    assert s.invs[who].pending == [PutRun(run, row)];
    OneWriteCommits(s.db, s.invs[who].pending[0]);
    assert t.db == WithRun(s.db, run, row);
    RecordsExist(sha, s);
    NotYetCompleted(sha, s, run);
    RunRowWritten(s, t, who, run, row);
    WrittenEvolves(s, t, who, run);
    WrittenChecked(s, t, who, run);
    FailedRowOk(sha, s, t, who, run);
    WrittenGlobal(sha, s, t, who, run);
    assert Local(sha, t, who) by { FailedLocal(sha, s, t, who, run); }
    StepKeeps(sha, s, t, who);
  }

  lemma FailedLocal(sha: string -> string, s: State, t: State, who: nat, run: RunId)
    requires RunWritten(s, t, who, run) && Local(sha, s, who) && s.invs[who].phase.FailMarked? && CheckedBefore(t, who)
    requires t.invs[who] == s.invs[who].(phase := Handled(run), endedAt := Some(s.clock), pending := [])
    requires t.db.runs[run].status == Failed
    ensures Local(sha, t, who)
  {
    hide CheckedBefore;
  }

  lemma FailedRowOk(sha: string -> string, s: State, t: State, who: nat, run: RunId)
    requires Global(sha, s) && In(s, who) && StillRunning(s, who, run)
    requires t.owner == s.owner && In(t, who) && SameCall(s.invs[who], t.invs[who])
    requires run in t.db.runs && t.db.runs[run].error.Some? && t.db.runs[run].finishedAt.Some?
    requires t.invs[who].phase == Handled(run)
    requires t.db.runs[run] == FailRun(s.db.runs[run], t.db.runs[run].error.value, t.db.runs[run].finishedAt.value)
    requires t.db.items == s.db.items && t.db.audit == s.db.audit
    ensures RunOk(sha, t, run) && t.db.runs[run].status == Failed
  {
    hide Global, Local, Belongs, NoRows, RunOk, FailRun;
    assert RunOk(sha, s, run) by { RunHolds(sha, s, run); }
    RunningFacts(sha, s, run);
    FailedBelongs(sha, s.invs[who], t.invs[who], s.db.runs[run], t.db.runs[run]);
    RunningIsUntouched(sha, s, run);
    FailedIsUntouched(s.db.runs[run], t.db.runs[run]);
    NoRowsKept(s.db, t.db, run);
    FailedRunOk(sha, t, run);
  }

  lemma RunHolds(sha: string -> string, s: State, run: RunId)
    requires Global(sha, s) && run in s.db.runs
    ensures run in s.owner && s.owner[run] < |s.invs| && RunOk(sha, s, run)
  {
    hide RunOk, NoRows, UniqueEmails;
  }

  lemma RunningIsUntouched(sha: string -> string, s: State, run: RunId)
    requires run in s.db.runs && run in s.owner && s.owner[run] < |s.invs| && RunOk(sha, s, run)
    requires s.db.runs[run].status == Running
    ensures Untouched(s.db.runs[run])
  {
    hide Belongs, NoRows, Untouched;
  }

  lemma FailedBelongs(sha: string -> string, a: Invocation, b: Invocation, r: Run, f: Run)
    requires Belongs(sha, a, r) && SameCall(a, b) && f.error.Some? && f.finishedAt.Some?
    requires f == FailRun(r, f.error.value, f.finishedAt.value)
    ensures Belongs(sha, b, f)
  {
    hide RuleSetOf, Rules.RuleSetText;
  }

  lemma FailedIsUntouched(r: Run, f: Run)
    requires Untouched(r) && f.error.Some? && f.finishedAt.Some?
    requires f == FailRun(r, f.error.value, f.finishedAt.value)
    ensures Untouched(f) && f.status == Failed
  {
  }

  lemma NoRowsKept(a: Db, b: Db, id: RunId)
    requires NoRows(a, id) && b.items == a.items && b.audit == a.audit
    ensures NoRows(b, id)
  {
  }

  lemma FailedRunOk(sha: string -> string, t: State, id: RunId)
    requires id in t.db.runs && id in t.owner && t.owner[id] < |t.invs| && t.db.runs[id].status == Failed
    requires Belongs(sha, t.invs[t.owner[id]], t.db.runs[id]) && t.invs[t.owner[id]].phase == Handled(id)
    requires Untouched(t.db.runs[id]) && t.db.runs[id].finishedAt.Some? && t.db.runs[id].error.Some? && NoRows(t.db, id)
    ensures RunOk(sha, t, id)
  {
    hide Belongs, NoRows, Untouched;
  }

  lemma MarkedFacts(sha: string -> string, s: State, who: nat) returns (run: RunId, src: Source, row: Run)
    requires Inv(sha, s) && CanCommitReport(s, who)
    ensures run == s.invs[who].phase.run && src == s.invs[who].phase.source
    ensures StillRunning(s, who, run) && CheckedBefore(s, who) && FromSnapshot(s.db, s.invs[who].period, src)
    ensures Builds(sha, s.invs[who], src) && ReportFits(src.report)
    ensures row.finishedAt.Some? && row == CompleteRun(s.db.runs[run], src.report, row.finishedAt.value, row.exports)
    ensures DoCommitReport(s, who).db == WithReport(s.db, run, row, src.report)
  {
    hide CheckedBefore, Global, Builds, FromSnapshot, ReportFits, ItemRows, ApplyAll, WithReport;
    assert Local(sha, s, who);
    run, src, row := s.invs[who].phase.run, s.invs[who].phase.source, s.invs[who].pending[2].run;
    ReportWritesCommit(s.db, run, row, src.report);
    assert s.invs[who].pending == ReportWrites(run, row, src.report);
  }

  /** What the final commit changes. */
  ghost predicate ReportCommitted(s: State, t: State, who: nat, run: RunId, src: Source, row: Run) {
    && In(s, who) && Owns(s, who, run) && run in s.db.runs && !s.invs[who].phase.Ended() && run !in s.completedAt
    && |t.invs| == |s.invs| && t.invs[who] == s.invs[who].(phase := Done(run), endedAt := Some(s.clock), pending := [])
    && (forall j :: 0 <= j < |s.invs| && j != who ==> t.invs[j] == s.invs[j])
    && t == s.(db := WithReport(s.db, run, row, src.report), invs := t.invs, clock := s.clock + 1,
               completedAt := s.completedAt[run := s.clock], sources := s.sources[run := src])
    && row.status == Completed
  }

  lemma ReportRowWritten(s: State, t: State, who: nat, run: RunId, src: Source, row: Run)
    requires ReportCommitted(s, t, who, run, src, row)
    ensures RunWritten(s, t, who, run)
  {
    hide ItemRows;
    forall id | id != run
      ensures SameRun(s, t, id)
    {
    }
  }

  lemma ReportRowOk(sha: string -> string, s: State, t: State, who: nat, run: RunId, src: Source, row: Run)
    requires Global(sha, s) && ReportCommitted(s, t, who, run, src, row) && StillRunning(s, who, run)
    requires row.finishedAt.Some? && row == CompleteRun(s.db.runs[run], src.report, row.finishedAt.value, row.exports)
    requires FromSnapshot(s.db, s.invs[who].period, src) && Builds(sha, s.invs[who], src)
    requires ReportFits(src.report)
    ensures RunOk(sha, t, run)
  {
    hide ItemRows, ReportFits, FromSnapshot, RuleSetOf, Rules.RuleSetText, ReportBuilder.BuildReport,
         RunOk;
    assert RunOk(sha, s, run);
    RunningFacts(sha, s, run);
    SnapshotKept(s, t, s.invs[who].period, src);
    RowsAppear(s.db, run, row, src.report);
    CompletedRowOk(sha, t, run, src);
  }

  lemma RunningFacts(sha: string -> string, s: State, run: RunId)
    requires run in s.db.runs && run in s.owner && s.owner[run] < |s.invs| && RunOk(sha, s, run)
    requires s.db.runs[run].status == Running
    ensures Belongs(sha, s.invs[s.owner[run]], s.db.runs[run]) && NoRows(s.db, run) && s.db.runs[run].error.None?
  {
    hide Belongs, NoRows;
  }

  lemma RowsAppear(db: Db, id: RunId, run: Run, report: ReportBuilder.Report)
    requires NoRows(db, id)
    ensures var after := WithReport(db, id, run, report);
            RowsOf(after.items, id) == ItemRows(report) && RowsOf(after.audit, id) == report.audit
  {
    hide ItemRows;
    assert [] + ItemRows(report) == ItemRows(report) && [] + report.audit == report.audit;
  }

  lemma CompletedRowOk(sha: string -> string, t: State, id: RunId, src: Source)
    requires id in t.db.runs && id in t.owner && t.owner[id] < |t.invs| && t.db.runs[id].status == Completed
    requires id in t.completedAt && id in t.sources && t.sources[id] == src
    requires var inv := t.invs[t.owner[id]];
             && Belongs(sha, inv, t.db.runs[id]) && inv.phase == Done(id) && inv.endedAt == Some(t.completedAt[id])
             && Shows(sha, t.db, inv, id, src)
    ensures RunOk(sha, t, id)
  {
    hide Belongs, Shows, NoRows, Untouched;
  }

  lemma DoneLocal(sha: string -> string, s: State, t: State, who: nat, run: RunId, src: Source, row: Run)
    requires ReportCommitted(s, t, who, run, src, row) && Local(sha, s, who) && CheckedBefore(t, who)
    ensures Local(sha, t, who)
  {
    hide CheckedBefore, ItemRows;
  }

  lemma CommitReportKeeps(sha: string -> string, s: State, who: nat)
    requires Inv(sha, s) && CanCommitReport(s, who)
    ensures Inv(sha, DoCommitReport(s, who)) && Evolves(s, DoCommitReport(s, who), who)
    ensures var t, run := DoCommitReport(s, who), s.invs[who].phase.run;
            && run in s.db.runs && s.db.runs[run].status == Running && NoRows(s.db, run)
            && run in t.db.runs && t.db.runs[run].status == Completed
            && Shows(sha, t.db, s.invs[who], run, s.invs[who].phase.source)
  {
    hide CheckedBefore, Global, Local, PhaseOk, Evolves, RunOk, ApplyAll, WithReport, Builds, FromSnapshot,
         ReportFits;
    assert Local(sha, s, who);
    var t := DoCommitReport(s, who);
    var run, src, row := MarkedFacts(sha, s, who);
    RecordsExist(sha, s);
    NotYetCompleted(sha, s, run);
    assert ReportCommitted(s, t, who, run, src, row);
    ReportRowWritten(s, t, who, run, src, row);
    WrittenEvolves(s, t, who, run);
    WrittenChecked(s, t, who, run);
    ReportRowOk(sha, s, t, who, run, src, row);
    WrittenGlobal(sha, s, t, who, run);
    DoneLocal(sha, s, t, who, run, src, row);
    StepKeeps(sha, s, t, who);
    CommitShows(sha, s, t, who, run, src, row);
  }

  lemma CommitShows(sha: string -> string, s: State, t: State, who: nat, run: RunId, src: Source, row: Run)
    requires Inv(sha, s) && ReportCommitted(s, t, who, run, src, row) && StillRunning(s, who, run) && RunOk(sha, t, run)
    ensures NoRows(s.db, run) && Shows(sha, t.db, s.invs[who], run, src)
  {
    hide Local, Belongs, NoRows, FromSnapshot, ReportFits, ItemRows, ReportBuilder.BuildReport, RuleSetOf, UniqueEmails;
    assert RunOk(sha, s, run);
    RunningFacts(sha, s, run);
  }

  // ---- New invocations and the environment ----

  lemma InvokeKeeps(
    sha: string -> string, s: State, origin: Origin, period: Calendar.Period, version: string, caller: Option<UserId>)
    requires Inv(sha, s) && CanInvoke(s, origin, version, caller)
    ensures Inv(sha, DoInvoke(s, origin, period, version, caller))
    ensures Evolves(s, DoInvoke(s, origin, period, version, caller), |s.invs|)
  {
    hide Local;
    var t, n := DoInvoke(s, origin, period, version, caller), |s.invs|;
    InvokeEvolves(sha, s, t);
    InvokeGlobal(sha, s, t);
    RecordsExist(sha, t);
    NewLocal(sha, s, origin, period, version, caller);
    forall j: nat | j < |t.invs|
      ensures Local(sha, t, j)
    {
      if j < n {
        OthersKept(sha, s, t, n, j);
      }
    }
  }

  ghost predicate Invoked(s: State, t: State) {
    |t.invs| == |s.invs| + 1 && t == s.(invs := t.invs, clock := s.clock + 1) && t.invs[..|s.invs|] == s.invs
  }

  lemma InvokeEvolves(sha: string -> string, s: State, t: State)
    requires Global(sha, s) && Invoked(s, t)
    ensures Evolves(s, t, |s.invs|)
  {
    hide RunOk, UniqueEmails, NoRows;
    forall j | 0 <= j < |s.invs|
      ensures t.invs[j] == s.invs[j]
    {
      assert t.invs[..|s.invs|][j] == s.invs[j];
    }
  }

  lemma InvokeGlobal(sha: string -> string, s: State, t: State)
    requires Global(sha, s) && Invoked(s, t)
    ensures Global(sha, t)
  {
    hide RunOk, NoRows, UniqueEmails;
    forall j | 0 <= j < |s.invs|
      ensures t.invs[j] == s.invs[j]
    {
      assert t.invs[..|s.invs|][j] == s.invs[j];
    }
    forall id | id in t.db.runs
      ensures RunOk(sha, t, id)
    {
      assert SameRun(s, t, id);
      RunKept(sha, s, t, id);
    }
  }

  lemma NewLocal(
    sha: string -> string, s: State, origin: Origin, period: Calendar.Period, version: string, caller: Option<UserId>)
    requires CanInvoke(s, origin, version, caller)
    ensures Local(sha, DoInvoke(s, origin, period, version, caller), |s.invs|)
  {
  }

  /** Steps of nobody: ingestion and sign-up. */
  lemma EnvironmentKeeps(sha: string -> string, s: State, t: State)
    requires Inv(sha, s) && Evolves(s, t, -1) && Global(sha, t) && |t.invs| == |s.invs|
    ensures Inv(sha, t)
  {
    hide Evolves, Local, Global;
    RecordsExist(sha, t);
    forall j: nat | j < |t.invs|
      ensures Local(sha, t, j)
    {
      OthersKept(sha, s, t, -1, j);
    }
  }

  lemma IngestKeeps(sha: string -> string, s: State, batch: seq<Transaction>)
    requires Inv(sha, s) && AllStorable(batch)
    ensures Inv(sha, DoIngest(s, batch)) && Evolves(s, DoIngest(s, batch), -1)
  {
    hide Local, Evolves, RunOk, NoRows;
    var t := DoIngest(s, batch);
    SameTablesEvolve(s, t);
    assert UniqueEmails(t.db);
    SameTablesGlobal(sha, s, t);
    EnvironmentKeeps(sha, s, t);
  }

  /** Only transactions and users grow. */
  ghost predicate TablesGrow(s: State, t: State) {
    && t == s.(db := s.db.(users := t.db.users, transactions := t.db.transactions), taken := t.taken, clock := s.clock + 1)
    && s.db.transactions <= t.db.transactions && UsersGrow(s, t, -1)
  }

  lemma SameTablesEvolve(s: State, t: State)
    requires TablesGrow(s, t)
    ensures Evolves(s, t, -1)
  {
    hide UsersGrow;
  }

  lemma SameTablesGlobal(sha: string -> string, s: State, t: State)
    requires Global(sha, s) && TablesGrow(s, t) && UniqueEmails(t.db) && t.db.users.Keys <= t.taken
    requires AllStorable(t.db.transactions)
    requires forall u :: IsAccount(t.db, u) ==> !t.db.users[u].active
    ensures Global(sha, t)
  {
    hide RunOk, UniqueEmails, UsersGrow;
    forall id | id in t.db.runs
      ensures RunOk(sha, t, id)
    {
      SameTablesRun(s, t, id);
      RunKept(sha, s, t, id);
    }
    forall id | id !in t.db.runs
      ensures NoRows(t.db, id)
    {
      assert NoRows(s.db, id);
    }
  }

  lemma SameTablesRun(s: State, t: State, id: RunId)
    requires TablesGrow(s, t)
    ensures SameRun(s, t, id)
  {
    hide UsersGrow;
  }

  lemma SignUpKeeps(sha: string -> string, s: State, account: UserId, user: User)
    requires Inv(sha, s) && CanSignUp(s, account, user)
    ensures Inv(sha, DoSignUp(s, account, user)) && Evolves(s, DoSignUp(s, account, user), -1)
  {
    hide Local, Evolves, RunOk, NoRows;
    var t := DoSignUp(s, account, user);
    assert account !in s.db.users;
    SameTablesEvolve(s, t);
    SignedUp(s, t, account, user);
    SameTablesGlobal(sha, s, t);
    EnvironmentKeeps(sha, s, t);
  }

  lemma SignedUp(s: State, t: State, account: UserId, user: User)
    requires account !in s.db.users && user.email != SERVICE_ACCOUNT_EMAIL && EmailFree(s.db, user.email)
    requires UniqueEmails(s.db) && t.db.users == s.db.users[account := user]
    requires forall u :: IsAccount(s.db, u) ==> !s.db.users[u].active
    ensures UniqueEmails(t.db) && forall u :: IsAccount(t.db, u) ==> !t.db.users[u].active
  {
    forall u | IsAccount(t.db, u)
      ensures !t.db.users[u].active
    {
      assert IsAccount(s.db, u);
    }
  }

  // ---- Every run ----

  lemma InitialInv(sha: string -> string, s: State)
    requires Initial(s)
    ensures Inv(sha, s)
  {
  }

  /** Who takes a step: an invocation, a new one, or nobody. */
  function Actor(s: State, a: Action): int {
    match a
    case Invoke(_, _, _, _) => |s.invs|
    case Ingest(_) => -1
    case SignUp(_, _) => -1
    case _ => a.who
  }

  lemma StepInv(sha: string -> string, s: State, a: Action)
    requires Inv(sha, s) && CanDo(sha, s, a)
    ensures Inv(sha, Do(sha, s, a)) && Evolves(s, Do(sha, s, a), Actor(s, a))
  {
    hide Inv, Evolves, DoInvoke, DoFindAccount, DoInsertAccount, DoCommitAccount, DoCheck, DoCreateRun, DoCommitStart, DoLoad,
         DoBuild, DoComplete, DoCommitReport, DoRaise, DoMarkFailed, DoCommitFailure, DoVanish, DoIngest, DoSignUp;
    match a
    case Invoke(origin, period, version, caller) => InvokeKeeps(sha, s, origin, period, version, caller);
    case FindAccount(who, seen) => FindAccountKeeps(sha, s, who, seen);
    case InsertAccount(who, account) => InsertAccountKeeps(sha, s, who, account);
    case Reread(who, seen) => FindAccountKeeps(sha, s, who, seen);
    case CommitAccount(who) => CommitAccountKeeps(sha, s, who);
    case Check(who, found) => CheckKeeps(sha, s, who, found);
    case CreateRun(who, run, at) => CreateRunKeeps(sha, s, who, run, at);
    case CommitStart(who) => CommitStartKeeps(sha, s, who);
    case Load(who, rows) => LoadKeeps(sha, s, who, rows);
    case Build(who, clocks, report) => BuildKeeps(sha, s, who, clocks, report);
    case Complete(who, at, exports) => CompleteKeeps(sha, s, who, at, exports);
    case CommitReport(who) => CommitReportKeeps(sha, s, who);
    case Raise(who) => RaiseKeeps(sha, s, who);
    case MarkFailed(who, message, at) => MarkFailedKeeps(sha, s, who, message, at);
    case CommitFailure(who) => CommitFailureKeeps(sha, s, who);
    case Vanish(who) => VanishKeeps(sha, s, who);
    case Ingest(batch) => IngestKeeps(sha, s, batch);
    case SignUp(account, user) => SignUpKeeps(sha, s, account, user);
  }

  lemma {:induction false} RunsInv(sha: string -> string, s: State, acts: seq<Action>, t: State)
    requires Inv(sha, s) && Runs(sha, s, acts, t)
    ensures Inv(sha, t)
    decreases |acts|
  {
    hide Inv, CanDo, Do;
    if acts != [] {
      StepInv(sha, s, acts[0]);
      RunsInv(sha, Do(sha, s, acts[0]), acts[1..], t);
    }
  }

  /** The invariant holds in every reachable state. */
  lemma ReachableInv(sha: string -> string, s: State)
    requires Reachable(sha, s)
    ensures Inv(sha, s)
  {
    hide Inv, Initial, Runs;
    var s0, acts :| Initial(s0) && Runs(sha, s0, acts, s);
    InitialInv(sha, s0);
    RunsInv(sha, s0, acts, s);
  }
}
