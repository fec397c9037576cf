/**
 What the report-run protocol promises over every interleaving, exception and crash.
 */
module ProtocolLaws {
  import opened Base
  import opened Protocol
  import opened ProtocolInvariant
  import opened ProtocolSteps
  import opened ScheduledReport
  import opened Store
  import opened Transactions
  import Aggregation
  import ReportLaws
  import Rules

  // ---- Duplicates ----

  /** A completed run of the service account. */
  ghost predicate ServiceReport(s: State, id: RunId) {
    id in s.db.runs && s.db.runs[id].status == Completed && IsAccount(s.db, s.db.runs[id].user)
  }

  predicate SameKey(a: Run, b: Run) {
    a.period == b.period && a.version == b.version && a.user == b.user
  }

  /** Neither invocation had ended when the other started. */
  predicate Overlap(a: Invocation, b: Invocation) {
    && (a.endedAt.Some? ==> b.startedAt < a.endedAt.value)
    && (b.endedAt.Some? ==> a.startedAt < b.endedAt.value)
  }

  /** A completed run was created by one invocation, which ended by completing it. */
  lemma CompletedBy(sha: string -> string, s: State, id: RunId)
    requires Inv(sha, s) && id in s.db.runs && s.db.runs[id].status == Completed
    ensures id in s.owner && In(s, s.owner[id]) && id in s.completedAt && id in s.sources
    ensures var inv := s.invs[s.owner[id]];
            && inv.phase == Done(id) && inv.endedAt == Some(s.completedAt[id]) && CheckedBefore(s, s.owner[id])
            && Belongs(sha, inv, s.db.runs[id]) && Shows(sha, s.db, inv, id, s.sources[id])
            && Timely(s, inv) && Identity(s, inv)
  {
    hide Belongs, Shows, CheckedBefore, NoRows, UniqueEmails, Timely, Identity;
    assert RunOk(sha, s, id);
    assert Local(sha, s, s.owner[id]);
  }

  lemma ServiceRunsAreScheduled(sha: string -> string, s: State, id: RunId)
    requires Inv(sha, s) && ServiceReport(s, id)
    ensures id in s.owner && In(s, s.owner[id]) && s.invs[s.owner[id]].origin == ByEvent
  {
    hide Shows, CheckedBefore, NoRows, RunOk;
    CompletedBy(sha, s, id);
  }

  lemma ReadBeforeOtherCompleted(sha: string -> string, s: State, p: RunId, q: RunId)
    requires Inv(sha, s) && ServiceReport(s, p) && ServiceReport(s, q) && p != q && SameKey(s.db.runs[p], s.db.runs[q])
    ensures p in s.owner && q in s.owner && In(s, s.owner[p]) && In(s, s.owner[q]) && s.owner[p] != s.owner[q]
    ensures p in s.completedAt && q in s.completedAt
    ensures var a, b := s.invs[s.owner[p]], s.invs[s.owner[q]];
            && a.readAt.Some? && a.startedAt <= a.readAt.value < s.completedAt[q]
            && a.endedAt == Some(s.completedAt[p])
  {
    hide Shows, NoRows, RunOk, Global;
    CompletedBy(sha, s, p);
    CompletedBy(sha, s, q);
    ServiceRunsAreScheduled(sha, s, p);
    assert Answers(s.db.runs[q], s.invs[s.owner[p]].period, s.invs[s.owner[p]].version, s.invs[s.owner[p]].user.value);
  }

  /**
   Two completed runs of the service account for the same period and version imply overlap: each
   invocation had done its check before the other's final commit.
   */
  lemma DuplicatesImplyOverlap(sha: string -> string, s: State, p: RunId, q: RunId)
    requires Reachable(sha, s) && ServiceReport(s, p) && ServiceReport(s, q) && p != q
    requires SameKey(s.db.runs[p], s.db.runs[q])
    ensures p in s.owner && q in s.owner && In(s, s.owner[p]) && In(s, s.owner[q]) && s.owner[p] != s.owner[q]
    ensures p in s.completedAt && q in s.completedAt
    ensures var a, b := s.invs[s.owner[p]], s.invs[s.owner[q]];
            && a.readAt.Some? && b.readAt.Some?
            && a.readAt.value < s.completedAt[q] && b.readAt.value < s.completedAt[p]
            && Overlap(a, b)
  {
    hide Inv, Reachable;
    ReachableInv(sha, s);
    ReadBeforeOtherCompleted(sha, s, p, q);
    ReadBeforeOtherCompleted(sha, s, q, p);
  }

  /** Scheduled invocations for the same period and version. */
  predicate Rivals(a: Invocation, b: Invocation) {
    a.origin == ByEvent && b.origin == ByEvent && a.period == b.period && a.version == b.version
  }

  /** If no two scheduled invocations of one key overlap, there is at most one such run. */
  lemma AtMostOneWithoutOverlap(sha: string -> string, s: State, p: RunId, q: RunId)
    requires Reachable(sha, s) && ServiceReport(s, p) && ServiceReport(s, q)
    requires SameKey(s.db.runs[p], s.db.runs[q])
    requires forall i, j :: 0 <= i < j < |s.invs| && Rivals(s.invs[i], s.invs[j]) ==> !Overlap(s.invs[i], s.invs[j])
    ensures p == q
  {
    hide Reachable, Overlap;
    if p != q {
      DuplicatesImplyOverlap(sha, s, p, q);
      OverlapSymmetric(s.invs[s.owner[p]], s.invs[s.owner[q]]);
      OwnersAreRivals(sha, s, p, q);
    }
  }

  lemma OwnersAreRivals(sha: string -> string, s: State, p: RunId, q: RunId)
    requires Reachable(sha, s) && ServiceReport(s, p) && ServiceReport(s, q)
    requires SameKey(s.db.runs[p], s.db.runs[q])
    ensures p in s.owner && q in s.owner && In(s, s.owner[p]) && In(s, s.owner[q])
    ensures Rivals(s.invs[s.owner[p]], s.invs[s.owner[q]]) && Rivals(s.invs[s.owner[q]], s.invs[s.owner[p]])
  {
    hide Reachable, Inv, Shows, CheckedBefore;
    ReachableInv(sha, s);
    CompletedBy(sha, s, p);
    CompletedBy(sha, s, q);
    ServiceRunsAreScheduled(sha, s, p);
    ServiceRunsAreScheduled(sha, s, q);
  }

  lemma OverlapSymmetric(a: Invocation, b: Invocation)
    ensures Overlap(a, b) <==> Overlap(b, a)
  {
  }

  /** Completed before the check of invocation `i`, by someone, for the same key. */
  ghost predicate CompletedEarlier(s: State, i: nat, id: RunId)
    requires In(s, i) && s.invs[i].readAt.Some? && s.invs[i].user.Some?
  {
    && id in s.completedAt && id in s.db.runs
    && Answers(s.db.runs[id], s.invs[i].period, s.invs[i].version, s.invs[i].user.value)
    && s.completedAt[id] < s.invs[i].readAt.value
  }

  /**
   An invocation that has done its check reuses a run exactly if a matching one was completed
   before the check. Failed and unfinished runs, and runs of other users, never make it reuse.
   */
  lemma ReusesIff(sha: string -> string, s: State, i: nat)
    requires Reachable(sha, s) && In(s, i) && s.invs[i].origin == ByEvent && s.invs[i].readAt.Some?
    ensures s.invs[i].user.Some?
    ensures s.invs[i].phase.Reusing? <==> exists id :: CompletedEarlier(s, i, id)
  {
    hide Reachable, Global, Builds, FromSnapshot, NoRows;
    ReachableInv(sha, s);
    assert Local(sha, s, i);
    RecordsExist(sha, s);
    if s.invs[i].phase.Reusing? {
      assert CompletedEarlier(s, i, s.invs[i].phase.found);
    } else {
      ReadersChecked(sha, s, i);
      forall id
        ensures !CompletedEarlier(s, i, id)
      {
        if id in s.completedAt && s.owner[id] == i {
          CompletionRecorded(sha, s, id);
        }
      }
    }
  }

  lemma CompletionRecorded(sha: string -> string, s: State, id: RunId)
    requires Inv(sha, s) && id in s.completedAt
    ensures id in s.owner && In(s, s.owner[id]) && s.invs[s.owner[id]].endedAt == Some(s.completedAt[id])
    ensures Timely(s, s.invs[s.owner[id]])
  {
    hide RunOk, NoRows, UniqueEmails, Local, Timely;
    assert id in s.db.runs && s.db.runs[id].status == Completed;
    CompletedBy(sha, s, id);
  }

  // ---- All or nothing ----

  /**
   A run has an audit trail exactly when it is completed; line items appear for no other run; and
   a completed run shows exactly the report of the transactions it loaded.
   */
  lemma NoPartialReports(sha: string -> string, s: State, id: RunId)
    requires Reachable(sha, s)
    ensures RowsOf(s.db.audit, id) != [] <==> id in s.db.runs && s.db.runs[id].status == Completed
    ensures RowsOf(s.db.items, id) != [] ==> id in s.db.runs && s.db.runs[id].status == Completed
    ensures id in s.db.runs && s.db.runs[id].status == Completed ==>
              && id in s.sources && id in s.owner && In(s, s.owner[id])
              && Shows(sha, s.db, s.invs[s.owner[id]], id, s.sources[id])
  {
    hide Reachable, Local, FromSnapshot, ReportFits, UniqueEmails, Belongs, Untouched;
    ReachableInv(sha, s);
    if id in s.db.runs {
      assert RunOk(sha, s, id);
      if s.db.runs[id].status == Completed {
        AuditHasFour(sha, s.invs[s.owner[id]], s.sources[id]);
      }
    } else {
      assert NoRows(s.db, id);
    }
  }

  lemma AuditHasFour(sha: string -> string, inv: Invocation, src: Source)
    requires Builds(sha, inv, src)
    ensures |src.report.audit| == 4
  {
    hide Rules.Run, Aggregation.LineItems, Rules.RuleSetText, RuleSetOf;
  }

  /** A handled exception leaves a failed run with its message and nothing else. */
  lemma HandledFailureIsRecorded(sha: string -> string, s: State, i: nat)
    requires Reachable(sha, s) && In(s, i) && s.invs[i].phase.Handled?
    ensures var run := s.invs[i].phase.run;
            && run in s.db.runs && s.db.runs[run].status == Failed
            && s.db.runs[run].error.Some? && s.db.runs[run].finishedAt.Some?
            && Untouched(s.db.runs[run]) && NoRows(s.db, run)
  {
    hide Reachable, CheckedBefore, UniqueEmails, Belongs, Untouched, NoRows;
    ReachableInv(sha, s);
    assert Local(sha, s, i);
    assert RunOk(sha, s, s.invs[i].phase.run);
  }

  // ---- Status ----

  predicate Terminal(run: Run) {
    run.status == Completed || run.status == Failed
  }

  /** The owner of a terminal run has ended. */
  lemma TerminalOwnerEnded(sha: string -> string, s: State, id: RunId)
    requires Inv(sha, s) && id in s.db.runs && Terminal(s.db.runs[id])
    ensures id in s.owner && In(s, s.owner[id]) && s.invs[s.owner[id]].phase.Ended()
  {
    hide Local, Shows, Belongs, NoRows, Untouched, UniqueEmails;
    assert RunOk(sha, s, id);
  }

  lemma EndedTakesNoStep(sha: string -> string, s: State, a: Action)
    requires CanDo(sha, s, a)
    ensures 0 <= Actor(s, a) < |s.invs| ==> !s.invs[Actor(s, a)].phase.Ended()
  {
    hide LatestCompleted, AccountRead, Builds, ReportFits, ReportLaws.ListForPeriod, EmailFree;
  }

  /** One step never touches a terminal run: not its row, not its line items, not its audit trail. */
  lemma TerminalStepFrozen(sha: string -> string, s: State, a: Action, id: RunId)
    requires Inv(sha, s) && CanDo(sha, s, a) && id in s.db.runs && Terminal(s.db.runs[id])
    ensures SameRun(s, Do(sha, s, a), id)
  {
    hide Inv, CanDo, Do, UsersGrow;
    StepInv(sha, s, a);
    TerminalOwnerEnded(sha, s, id);
    EndedTakesNoStep(sha, s, a);
    var t := Do(sha, s, a);
    assert t.owner[id] == s.owner[id] != Actor(s, a);
  }

  /** Completed and failed are final over every run of the protocol. */
  lemma {:induction false} TerminalFrozen(sha: string -> string, s: State, acts: seq<Action>, t: State, id: RunId)
    requires Reachable(sha, s) && Runs(sha, s, acts, t) && id in s.db.runs && Terminal(s.db.runs[id])
    ensures SameRun(s, t, id)
  {
    hide Reachable, Runs, SameRun;
    ReachableInv(sha, s);
    TerminalFrozenFrom(sha, s, acts, t, id);
  }

  lemma {:induction false} TerminalFrozenFrom(sha: string -> string, s: State, acts: seq<Action>, t: State, id: RunId)
    requires Inv(sha, s) && Runs(sha, s, acts, t) && id in s.db.runs && Terminal(s.db.runs[id])
    ensures SameRun(s, t, id)
    decreases |acts|
  {
    hide Inv, CanDo, Do;
    if acts != [] {
      var m := Do(sha, s, acts[0]);
      StepInv(sha, s, acts[0]);
      TerminalStepFrozen(sha, s, acts[0], id);
      TerminalFrozenFrom(sha, m, acts[1..], t, id);
    }
  }

  /** What a status may turn into; `None` is a run that does not exist. */
  predicate StatusStep(a: Option<Status>, b: Option<Status>) {
    match a
    case None => b == None || b == Some(Running)
    case Some(Running) => b.Some?
    case Some(_) => b == a
  }

  function StatusOf(db: Db, id: RunId): Option<Status> {
    if id in db.runs then Some(db.runs[id].status) else None
  }

  predicate SameOrigin(a: Run, b: Run) {
    SameKey(a, b) && a.createdAt == b.createdAt && a.definitionHash == b.definitionHash
  }

  /** One row written: a new running one, or a running one that ends. */
  predicate RowChange(runs: map<RunId, Run>, id: RunId, row: Run) {
    if id in runs then runs[id].status == Running && Terminal(row) && SameOrigin(runs[id], row)
    else row.status == Running
  }

  lemma CommitsChangeOneRow(sha: string -> string, s: State, a: Action) returns (id: RunId, row: Run)
    requires Inv(sha, s) && CanDo(sha, s, a) && (a.CommitStart? || a.CommitReport? || a.CommitFailure?)
    ensures Do(sha, s, a).db.runs == s.db.runs[id := row] && RowChange(s.db.runs, id, row)
  {
    hide Inv, DoCommitStart, DoCommitReport, DoCommitFailure, ItemRows, Builds, FromSnapshot, CheckedBefore, RuleSetOf,
         Rules.RuleSetText, ReportFits;
    match a
    case CommitStart(who) =>
      id, row := CreatedFacts(sha, s, who);
    case CommitReport(who) =>
      var src;
      id, src, row := MarkedFacts(sha, s, who);
    case CommitFailure(who) =>
      id, row := FailMarkedFacts(sha, s, who);
  }

  predicate AccountAction(a: Action) {
    a.FindAccount? || a.InsertAccount? || a.Reread? || a.CommitAccount? || a.Check?
  }

  predicate WorkAction(a: Action) {
    a.CreateRun? || a.Load? || a.Build? || a.Complete? || a.Raise? || a.MarkFailed?
  }

  lemma AccountActionsChangeNoRow(sha: string -> string, s: State, a: Action)
    requires Inv(sha, s) && CanDo(sha, s, a) && AccountAction(a)
    ensures Do(sha, s, a).db.runs == s.db.runs
  {
    hide Inv, LatestCompleted, AccountRead, NoAccount;
    match a
    case CommitAccount(who) => AccountCommitKeepsRuns(sha, s, who);
    case FindAccount(_, _) =>
    case InsertAccount(_, _) =>
    case Reread(_, _) =>
    case Check(_, _) =>
  }

  lemma WorkActionsChangeNoRow(sha: string -> string, s: State, a: Action)
    requires CanDo(sha, s, a) && WorkAction(a)
    ensures Do(sha, s, a).db.runs == s.db.runs
  {
    hide ItemRows, Builds, ReportLaws.ListForPeriod, ReportFits, CompleteRun, FailRun, FirstRow;
    match a
    case CreateRun(_, _, _) =>
    case Load(_, _) =>
    case Build(_, _, _) =>
    case Complete(_, _, _) =>
    case Raise(_) =>
    case MarkFailed(_, _, _) =>
  }

  lemma OthersChangeNoRow(sha: string -> string, s: State, a: Action)
    requires Inv(sha, s) && CanDo(sha, s, a) && !a.CommitStart? && !a.CommitReport? && !a.CommitFailure?
    ensures Do(sha, s, a).db.runs == s.db.runs
  {
    if AccountAction(a) {
      AccountActionsChangeNoRow(sha, s, a);
    } else if WorkAction(a) {
      WorkActionsChangeNoRow(sha, s, a);
    } else {
      hide Inv, EmailFree;
    }
  }

  /** Status moves from nothing to running to completed or failed, and the key columns never change. */
  lemma StatusMoves(sha: string -> string, s: State, a: Action, id: RunId)
    requires Reachable(sha, s) && CanDo(sha, s, a)
    ensures var t := Do(sha, s, a);
            && StatusStep(StatusOf(s.db, id), StatusOf(t.db, id))
            && (id in s.db.runs && id in t.db.runs ==> SameOrigin(s.db.runs[id], t.db.runs[id]))
  {
    hide Inv, Reachable, CanDo, Do;
    ReachableInv(sha, s);
    if a.CommitStart? || a.CommitReport? || a.CommitFailure? {
      var changed, row := CommitsChangeOneRow(sha, s, a);
    } else {
      OthersChangeNoRow(sha, s, a);
    }
  }

  lemma FailMarkedFacts(sha: string -> string, s: State, who: nat) returns (run: RunId, row: Run)
    requires Inv(sha, s) && CanCommitFailure(s, who)
    ensures run == s.invs[who].phase.run && run in s.db.runs && s.db.runs[run].status == Running
    ensures row.error.Some? && row.finishedAt.Some?
    ensures row == FailRun(s.db.runs[run], row.error.value, row.finishedAt.value)
    ensures DoCommitFailure(s, who).db == WithRun(s.db, run, row)
  {
    hide CheckedBefore, Global;
    assert Local(sha, s, who);
    run, row := s.invs[who].phase.run, s.invs[who].pending[0].run;
    OneWriteCommits(s.db, s.invs[who].pending[0]);
    assert s.invs[who].pending == [PutRun(run, row)];
  }

  lemma AccountCommitKeepsRuns(sha: string -> string, s: State, who: nat)
    requires Inv(sha, s) && CanCommitAccount(s, who)
    ensures DoCommitAccount(s, who).db.runs == s.db.runs
  {
    hide CheckedBefore, Global;
    assert Local(sha, s, who);
    OneWriteCommits(s.db, s.invs[who].pending[0]);
    assert s.invs[who].pending == [s.invs[who].pending[0]];
  }

  // ---- The service account ----

  /** At most one service account ever exists, and it is inactive. */
  lemma OneServiceAccount(sha: string -> string, s: State, u: UserId, v: UserId)
    requires Reachable(sha, s) && IsAccount(s.db, u) && IsAccount(s.db, v)
    ensures u == v && !s.db.users[u].active
  {
    hide Reachable, RunOk, NoRows, Local;
    ReachableInv(sha, s);
  }

  /** All scheduled invocations act as the same user, and no API caller acts as it. */
  lemma SameIdentity(sha: string -> string, s: State, i: nat, j: nat)
    requires Reachable(sha, s) && In(s, i) && In(s, j) && s.invs[i].user.Some? && s.invs[j].user.Some?
    requires s.invs[i].origin == ByEvent
    ensures IsAccount(s.db, s.invs[i].user.value)
    ensures s.invs[i].user == s.invs[j].user <==> s.invs[j].origin == ByEvent
  {
    hide Reachable, RunOk, NoRows, PhaseOk, Timely;
    ReachableInv(sha, s);
    assert Local(sha, s, i) && Local(sha, s, j);
  }

  /** After a refused insert the re-read cannot come back empty: the winner has committed. */
  lemma RefusedFindsWinner(sha: string -> string, s: State, i: nat, seen: Option<UserId>)
    requires Reachable(sha, s) && In(s, i) && s.invs[i].phase.Refused? && AccountRead(s.db, seen)
    ensures seen.Some? && IsAccount(s.db, seen.value)
  {
    hide Reachable, Global, CheckedBefore;
    ReachableInv(sha, s);
    assert Local(sha, s, i);
  }

  /** At most one uncommitted account at any time, and only while none is committed. */
  lemma OnePendingAccount(sha: string -> string, s: State, i: nat, j: nat)
    requires Reachable(sha, s) && In(s, i) && In(s, j) && s.invs[i].phase.Inserted? && s.invs[j].phase.Inserted?
    ensures i == j && NoAccount(s.db)
  {
    hide Reachable, Global, CheckedBefore;
    ReachableInv(sha, s);
    assert Local(sha, s, i) && Local(sha, s, j);
  }
}
