/**
 What holds in every reachable state of the report-run protocol. The invariant is a global part
 and one part per invocation; a step of one invocation disturbs the others only in ways listed by
 `Evolves`, so each action is checked once, against its own invocation.
 */
module ProtocolInvariant {
  import opened Base
  import opened Protocol
  import opened ScheduledReport
  import opened Store
  import opened Transactions
  import Calendar
  import ReportBuilder
  import ReportLaws
  import Rules

  // ---- Run rows ----

  /** The columns that never change after creation. */
  predicate Belongs(sha: string -> string, inv: Invocation, run: Run) {
    inv.user.Some? && run.(status := Running, count := 0, inputHash := "", violations := [],
                           finishedAt := None, error := None, exports := NO_EXPORTS)
                      == FirstRow(sha, inv, inv.user.value, run.createdAt)
  }

  /** The rows are a load of the transactions stored at some moment. */
  ghost predicate FromSnapshot(db: Db, period: Calendar.Period, src: Source) {
    && src.upTo <= |db.transactions|
    && ReportLaws.ListForPeriod(db.transactions[..src.upTo], Calendar.Window(period), src.rows)
  }

  /** A completed run shows exactly the report built from its source, and all of it. */
  ghost predicate Shows(sha: string -> string, db: Db, inv: Invocation, id: RunId, src: Source)
    requires id in db.runs
  {
    var run, report := db.runs[id], src.report;
    && FromSnapshot(db, inv.period, src) && Builds(sha, inv, src) && ReportFits(report)
    && run.count == report.inputCount && run.inputHash == report.inputHash && run.violations == report.violations
    && run.finishedAt.Some? && run.error.None?
    && RowsOf(db.items, id) == ItemRows(report) && RowsOf(db.audit, id) == report.audit
  }

  ghost predicate RunOk(sha: string -> string, s: State, id: RunId)
    requires id in s.db.runs && id in s.owner && s.owner[id] < |s.invs|
  {
    var run, inv := s.db.runs[id], s.invs[s.owner[id]];
    && Belongs(sha, inv, run)
    && match run.status
       case Running => Untouched(run) && run.finishedAt.None? && run.error.None? && NoRows(s.db, id)
       case Failed =>
         && inv.phase == Handled(id)
         && Untouched(run) && run.finishedAt.Some? && run.error.Some? && NoRows(s.db, id)
       case Completed =>
         && inv.phase == Done(id) && id in s.completedAt && id in s.sources
         && inv.endedAt == Some(s.completedAt[id])
         && Shows(sha, s.db, inv, id, s.sources[id])
  }

  ghost predicate Global(sha: string -> string, s: State) {
    && s.db.runs.Keys <= s.owner.Keys
    && (forall id :: id in s.owner ==> s.owner[id] < |s.invs|)
    && (forall id :: id in s.db.runs ==> RunOk(sha, s, id))
    && (forall id :: id in s.completedAt ==>
          id in s.db.runs && s.db.runs[id].status == Completed && s.completedAt[id] < s.clock)
    && (forall id :: id !in s.db.runs ==> NoRows(s.db, id))
    && UniqueEmails(s.db) && AllStorable(s.db.transactions)
    && (forall u :: IsAccount(s.db, u) ==> !s.db.users[u].active)
    && s.db.users.Keys <= s.taken
    && (s.lock.Some? ==> In(s, s.lock.value) && s.invs[s.lock.value].phase.Inserted?)
  }

  // ---- One invocation ----

  ghost predicate Timely(s: State, inv: Invocation) {
    && inv.startedAt < s.clock
    && (inv.readAt.Some? ==> inv.startedAt <= inv.readAt.value < s.clock)
    && (inv.endedAt.Some? <==> inv.phase.Ended())
    && (inv.endedAt.Some? ==> inv.startedAt <= inv.endedAt.value < s.clock)
    && (inv.endedAt.Some? && inv.readAt.Some? ==> inv.readAt.value <= inv.endedAt.value)
  }

  ghost predicate Identity(s: State, inv: Invocation) {
    && Rules.GetRuleSet(inv.version).Some?
    && (inv.origin == ByApi ==> inv.user.Some? && inv.user.value in s.db.users && s.db.users[inv.user.value].active)
    && (inv.origin == ByEvent && inv.user.Some? ==> IsAccount(s.db, inv.user.value))
  }

  /** Runs completed by others that would have answered its check were completed after it. */
  ghost predicate CheckedBefore(s: State, i: nat)
    requires In(s, i)
  {
    var inv := s.invs[i];
    inv.origin == ByEvent ==>
      && inv.readAt.Some? && inv.user.Some?
      && forall id :: id in s.completedAt && id in s.db.runs && id in s.owner && s.owner[id] != i
                      && Answers(s.db.runs[id], inv.period, inv.version, inv.user.value)
           ==> inv.readAt.value < s.completedAt[id]
  }

  predicate Owns(s: State, i: nat, run: RunId) {
    run in s.owner && s.owner[run] == i
  }

  predicate StillRunning(s: State, i: nat, run: RunId) {
    Owns(s, i, run) && run in s.db.runs && s.db.runs[run].status == Running
  }

  predicate CreatedRow(sha: string -> string, s: State, inv: Invocation, run: RunId) {
    && |inv.pending| == 1 && inv.pending[0].PutRun? && inv.pending[0].runId == run && inv.user.Some?
    && inv.pending[0].run == FirstRow(sha, inv, inv.user.value, inv.pending[0].run.createdAt)
  }

  predicate MarkedRow(s: State, inv: Invocation, run: RunId, report: ReportBuilder.Report)
    requires run in s.db.runs
  {
    && |inv.pending| == 3 && inv.pending[2].PutRun? && inv.pending[2].run.finishedAt.Some?
    && inv.pending == ReportWrites(
         run,
         CompleteRun(s.db.runs[run], report, inv.pending[2].run.finishedAt.value, inv.pending[2].run.exports),
         report)
  }

  predicate FailedRow(s: State, inv: Invocation, run: RunId)
    requires run in s.db.runs
  {
    && |inv.pending| == 1 && inv.pending[0].PutRun? && inv.pending[0].runId == run
    && inv.pending[0].run.error.Some? && inv.pending[0].run.finishedAt.Some?
    && inv.pending[0].run
       == FailRun(s.db.runs[run], inv.pending[0].run.error.value, inv.pending[0].run.finishedAt.value)
  }

  /** What the phase says about the database and the pending writes. */
  ghost predicate PhaseOk(sha: string -> string, s: State, i: nat)
    requires In(s, i)
  {
    var inv := s.invs[i];
    match inv.phase
    case Begun => inv.origin == ByEvent && inv.user.None? && inv.readAt.None? && inv.pending == []
    case NotFound => inv.origin == ByEvent && inv.user.None? && inv.readAt.None? && inv.pending == []
    case Inserted(id) =>
      && inv.origin == ByEvent && inv.user.None? && inv.readAt.None?
      && s.lock == Some(i) && id in s.taken && id !in s.db.users
      && NoAccount(s.db) && inv.pending == [PutUser(id, ServiceUser())]
    case Refused => inv.origin == ByEvent && inv.user.None? && inv.readAt.None? && !NoAccount(s.db) && inv.pending == []
    case Identified => inv.origin == ByEvent && inv.user.Some? && inv.readAt.None? && inv.pending == []
    case Reusing(id) =>
      && inv.readAt.Some? && inv.user.Some? && id in s.completedAt && id in s.db.runs
      && Answers(s.db.runs[id], inv.period, inv.version, inv.user.value) && s.completedAt[id] < inv.readAt.value
    case Cleared => CheckedBefore(s, i) && inv.pending == []
    case Created(run) => CheckedBefore(s, i) && Owns(s, i, run) && run !in s.db.runs && CreatedRow(sha, s, inv, run)
    case Started(run) => CheckedBefore(s, i) && StillRunning(s, i, run) && inv.pending == []
    case Loaded(run, upTo, rows) =>
      && CheckedBefore(s, i) && StillRunning(s, i, run) && inv.pending == []
      && upTo <= |s.db.transactions|
      && ReportLaws.ListForPeriod(s.db.transactions[..upTo], Calendar.Window(inv.period), rows)
    case Built(run, src) =>
      && CheckedBefore(s, i) && StillRunning(s, i, run)
      && FromSnapshot(s.db, inv.period, src) && Builds(sha, inv, src)
      && inv.pending == [AddItems(run, ItemRows(src.report)), AddAudit(run, src.report.audit)]
    case Marked(run, src) =>
      && CheckedBefore(s, i) && StillRunning(s, i, run)
      && FromSnapshot(s.db, inv.period, src) && Builds(sha, inv, src)
      && ReportFits(src.report) && MarkedRow(s, inv, run, src.report)
    case Done(run) => CheckedBefore(s, i) && run in s.completedAt && Owns(s, i, run)
    case Failing(run) => CheckedBefore(s, i) && StillRunning(s, i, run) && inv.pending == []
    case FailMarked(run) => CheckedBefore(s, i) && StillRunning(s, i, run) && FailedRow(s, inv, run)
    case Handled(run) => CheckedBefore(s, i) && Owns(s, i, run) && run in s.db.runs && s.db.runs[run].status == Failed
    case Gone => inv.readAt.Some? ==> CheckedBefore(s, i)
  }

  ghost predicate Local(sha: string -> string, s: State, i: nat)
    requires In(s, i)
  {
    Timely(s, s.invs[i]) && Identity(s, s.invs[i]) && PhaseOk(sha, s, i)
  }

  ghost predicate Inv(sha: string -> string, s: State) {
    Global(sha, s) && forall i :: 0 <= i < |s.invs| ==> Local(sha, s, i)
  }

  // ---- How a step may disturb everyone else ----

  predicate SameCall(a: Invocation, b: Invocation) {
    && b.origin == a.origin && b.period == a.period && b.version == a.version && b.startedAt == a.startedAt
    && (a.user.Some? ==> b.user == a.user)
  }

  /** A run's row and rows, and what is recorded of it, are the same in both states. */
  ghost predicate SameRun(s: State, t: State, id: RunId) {
    && (id in s.db.runs <==> id in t.db.runs)
    && (id in s.db.runs ==> s.db.runs[id] == t.db.runs[id])
    && RowsOf(s.db.items, id) == RowsOf(t.db.items, id) && RowsOf(s.db.audit, id) == RowsOf(t.db.audit, id)
    && (id in s.completedAt <==> id in t.completedAt)
    && (id in s.completedAt ==> s.completedAt[id] == t.completedAt[id])
    && (id in s.sources <==> id in t.sources)
    && (id in s.sources ==> s.sources[id] == t.sources[id])
  }

  ghost predicate UsersGrow(s: State, t: State, i: int) {
    && (forall u :: u in s.db.users ==> u in t.db.users && t.db.users[u] == s.db.users[u])
    && s.taken <= t.taken
    && (forall u :: u in t.db.users && u in s.taken && u !in s.db.users ==> s.lock == Some(i))
    && (forall u :: IsAccount(t.db, u) && !IsAccount(s.db, u) ==> s.lock == Some(i))
    && (forall j: nat :: j != i ==> (s.lock == Some(j) <==> t.lock == Some(j)))
  }

  ghost predicate RunsGrow(s: State, t: State, i: int) {
    && (forall id :: id in s.owner ==> id in t.owner && t.owner[id] == s.owner[id])
    && (forall id :: id in t.owner && id !in s.owner ==> t.owner[id] == i)
    && (forall id :: !(id in t.owner && t.owner[id] == i) ==> SameRun(s, t, id))
    && (forall id :: id in s.completedAt ==> id in t.completedAt && t.completedAt[id] == s.completedAt[id])
    && (forall id :: id in s.completedAt && id in s.db.runs ==> id in t.db.runs && t.db.runs[id] == s.db.runs[id])
    && (forall id :: id in t.completedAt && id !in s.completedAt ==> t.completedAt[id] == s.clock)
  }

  ghost predicate Evolves(s: State, t: State, i: int) {
    && t.clock == s.clock + 1 && |s.invs| <= |t.invs|
    && (forall j :: 0 <= j < |s.invs| && j != i ==> t.invs[j] == s.invs[j])
    && (0 <= i < |s.invs| ==> SameCall(s.invs[i], t.invs[i]))
    && s.db.transactions <= t.db.transactions
    && UsersGrow(s, t, i) && RunsGrow(s, t, i)
  }

  lemma CheckedBeforeKept(s: State, t: State, i: int, j: nat)
    requires Evolves(s, t, i) && j != i && In(s, j) && CheckedBefore(s, j)
    requires s.invs[j].readAt.Some? ==> s.invs[j].readAt.value < s.clock
    requires forall id :: id in t.completedAt ==> id in t.db.runs && id in t.owner
    requires forall id :: id in s.completedAt ==> id in s.db.runs && id in s.owner
    ensures CheckedBefore(t, j)
  {
  }

  lemma SnapshotKept(s: State, t: State, period: Calendar.Period, src: Source)
    requires s.db.transactions <= t.db.transactions && FromSnapshot(s.db, period, src)
    ensures FromSnapshot(t.db, period, src)
  {
    assert t.db.transactions[..src.upTo] == s.db.transactions[..src.upTo];
  }

  lemma OwnedKept(s: State, t: State, i: int, j: nat, run: RunId)
    requires RunsGrow(s, t, i) && Owns(s, j, run) && j != i
    ensures Owns(t, j, run) && SameRun(s, t, run)
  {
  }

  lemma SomeAccount(db: Db) returns (u: UserId)
    requires !NoAccount(db)
    ensures IsAccount(db, u)
  {
    u :| u in db.users && db.users[u].email == SERVICE_ACCOUNT_EMAIL;
  }

  predicate AccountPhase(p: Phase) {
    p.Begun? || p.NotFound? || p.Inserted? || p.Refused? || p.Identified? || p.Gone?
  }

  lemma AccountPhaseKept(sha: string -> string, s: State, t: State, i: int, j: nat)
    requires In(s, j) && In(t, j) && t.invs[j] == s.invs[j] && UsersGrow(s, t, i) && j != i
    requires AccountPhase(s.invs[j].phase) && PhaseOk(sha, s, j)
    requires CheckedBefore(s, j) ==> CheckedBefore(t, j)
    ensures PhaseOk(sha, t, j)
  {
    hide CheckedBefore, Builds, FromSnapshot, ReportFits, ReportLaws.ListForPeriod, MarkedRow,
         FailedRow, CreatedRow;
    if s.invs[j].phase.Refused? {
      var u := SomeAccount(s.db);
      assert u in t.db.users && IsAccount(t.db, u);
    }
    if s.invs[j].phase.Inserted? {
      forall u | u in t.db.users
        ensures t.db.users[u].email != SERVICE_ACCOUNT_EMAIL
      {
        assert IsAccount(t.db, u) ==> IsAccount(s.db, u);
      }
    }
  }

  predicate OwnsItsRun(p: Phase) {
    || p.Created? || p.Started? || p.Loaded? || p.Built? || p.Marked?
    || p.Failing? || p.FailMarked? || p.Handled? || p.Done?
  }

  lemma RunPhaseKept(sha: string -> string, s: State, t: State, j: nat)
    requires In(s, j) && In(t, j) && t.invs[j] == s.invs[j] && s.db.transactions <= t.db.transactions
    requires OwnsItsRun(s.invs[j].phase) && PhaseOk(sha, s, j)
    requires var run := s.invs[j].phase.run; Owns(t, j, run) && SameRun(s, t, run)
    requires CheckedBefore(s, j) ==> CheckedBefore(t, j)
    ensures PhaseOk(sha, t, j)
  {
    hide CheckedBefore, Builds, ReportFits, ReportLaws.ListForPeriod, ItemRows, FailRun, CompleteRun, FirstRow,
         FromSnapshot, RowsOf, ReportWrites;
    if s.invs[j].phase.Loaded? {
      assert t.db.transactions[..s.invs[j].phase.upTo] == s.db.transactions[..s.invs[j].phase.upTo];
    }
    if s.invs[j].phase.Built? || s.invs[j].phase.Marked? {
      SnapshotKept(s, t, s.invs[j].period, s.invs[j].phase.source);
    }
  }

  /** A step of one invocation leaves the others' part of the invariant standing. */
  lemma OthersKept(sha: string -> string, s: State, t: State, i: int, j: nat)
    requires Inv(sha, s) && Evolves(s, t, i) && j != i && In(s, j)
    requires forall id :: id in t.completedAt ==> id in t.db.runs && id in t.owner
    ensures Local(sha, t, j)
  {
    assert Local(sha, s, j) && In(t, j);
    assert CheckedBefore(s, j) ==> CheckedBefore(t, j) by {
      if CheckedBefore(s, j) {
        CheckedBeforeKept(s, t, i, j);
      }
    }
    OtherPhaseKept(sha, s, t, i, j);
    assert Timely(t, t.invs[j]) && Identity(t, t.invs[j]) by {
      hide PhaseOk, CheckedBefore, RunsGrow, Global;
    }
  }

  lemma OtherPhaseKept(sha: string -> string, s: State, t: State, i: int, j: nat)
    requires In(s, j) && PhaseOk(sha, s, j) && Evolves(s, t, i) && j != i
    requires CheckedBefore(s, j) ==> CheckedBefore(t, j)
    ensures PhaseOk(sha, t, j)
  {
    if AccountPhase(s.invs[j].phase) {
      AccountPhaseKept(sha, s, t, i, j);
    } else if OwnsItsRun(s.invs[j].phase) {
      assert Owns(s, j, s.invs[j].phase.run) by {
        hide CheckedBefore, Builds, FromSnapshot, RunsGrow, UsersGrow;
      }
      OwnedKept(s, t, i, j, s.invs[j].phase.run);
      RunPhaseKept(sha, s, t, j);
    } else {
      hide CheckedBefore, UsersGrow;
    }
  }

  // ---- Putting a step together ----

  /** What remains to check of a step that changes one invocation. */
  ghost predicate StepOk(sha: string -> string, s: State, t: State, i: nat) {
    && Evolves(s, t, i) && |t.invs| == |s.invs| && In(s, i) && Local(sha, t, i) && Global(sha, t)
  }

  lemma StepKeeps(sha: string -> string, s: State, t: State, i: nat)
    requires Inv(sha, s) && StepOk(sha, s, t, i)
    ensures Inv(sha, t)
  {
    hide Evolves, Local;
    assert |t.invs| == |s.invs|;
    CompletedExist(sha, t);
    forall j: nat | j < |t.invs|
      ensures Local(sha, t, j)
    {
      if j != i {
        OthersKept(sha, s, t, i, j);
      }
    }
  }

  lemma CompletedExist(sha: string -> string, t: State)
    requires Global(sha, t)
    ensures forall id :: id in t.completedAt ==> id in t.db.runs && id in t.owner
  {
    hide RunOk, NoRows, UniqueEmails, IsAccount;
  }

  /** A run looks the same after a step that does not touch it. */
  lemma RunKept(sha: string -> string, s: State, t: State, id: RunId)
    requires id in s.db.runs && id in s.owner && s.owner[id] < |s.invs| && RunOk(sha, s, id)
    requires id in t.owner && t.owner[id] == s.owner[id] < |t.invs| && SameRun(s, t, id)
    requires s.db.transactions <= t.db.transactions
    requires SameCall(s.invs[s.owner[id]], t.invs[s.owner[id]])
    requires s.invs[s.owner[id]].phase.Ended() ==> t.invs[s.owner[id]] == s.invs[s.owner[id]]
    ensures RunOk(sha, t, id)
  {
    hide Builds, ReportFits, FromSnapshot, Rules.RuleSetText, RuleSetOf, ItemRows,
         ReportLaws.ListForPeriod, RowsOf;
    if s.db.runs[id].status == Completed {
      SnapshotKept(s, t, s.invs[s.owner[id]].period, s.sources[id]);
    }
  }

  /** A step that leaves the tables and the records alone keeps the global part. */
  ghost predicate SameRecords(s: State, t: State) {
    && t.db == s.db && t.owner == s.owner && t.completedAt == s.completedAt && t.sources == s.sources
    && t.taken == s.taken && t.clock == s.clock + 1
  }

  lemma QuietEvolves(s: State, t: State, i: nat)
    requires In(s, i) && SameRecords(s, t) && (t.lock == s.lock || (s.lock == Some(i) && t.lock == None))
    requires |t.invs| == |s.invs| && (forall j :: 0 <= j < |s.invs| && j != i ==> t.invs[j] == s.invs[j])
    requires SameCall(s.invs[i], t.invs[i])
    ensures Evolves(s, t, i)
  {
  }

  lemma QuietGlobal(sha: string -> string, s: State, t: State, i: nat)
    requires Global(sha, s) && In(s, i) && SameRecords(s, t) && |t.invs| == |s.invs|
    requires forall j :: 0 <= j < |s.invs| && j != i ==> t.invs[j] == s.invs[j]
    requires SameCall(s.invs[i], t.invs[i]) && !s.invs[i].phase.Ended()
    requires t.lock == None || (t.lock == s.lock && (s.lock == Some(i) ==> t.invs[i].phase.Inserted?))
    ensures Global(sha, t)
  {
    hide RunOk, NoRows, UniqueEmails;
    forall id | id in t.db.runs
      ensures RunOk(sha, t, id)
    {
      SameEverywhere(s, t, id);
      RunKept(sha, s, t, id);
    }
  }

  lemma SameEverywhere(s: State, t: State, id: RunId)
    requires SameRecords(s, t)
    ensures SameRun(s, t, id)
  {
  }

  /** Most steps: one invocation moves on and nothing else changes. */
  lemma QuietKeeps(sha: string -> string, s: State, i: nat, inv: Invocation)
    requires Inv(sha, s) && In(s, i) && SameCall(s.invs[i], inv)
    requires !s.invs[i].phase.Ended() && !s.invs[i].phase.Inserted?
    requires Local(sha, Move(s, i, inv), i)
    ensures Inv(sha, Move(s, i, inv)) && Evolves(s, Move(s, i, inv), i)
  {
    hide Global, Local, SameCall, Evolves;
    var t := Move(s, i, inv);
    assert Local(sha, s, i);
    assert s.lock != Some(i) by { NotHolding(sha, s, i); }
    QuietEvolves(s, t, i);
    QuietGlobal(sha, s, t, i);
    StepKeeps(sha, s, t, i);
  }

  lemma NotHolding(sha: string -> string, s: State, i: nat)
    requires Global(sha, s) && In(s, i) && !s.invs[i].phase.Inserted?
    ensures s.lock != Some(i)
  {
    hide RunOk, NoRows, UniqueEmails, IsAccount;
  }
}
