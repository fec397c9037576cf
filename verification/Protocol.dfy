/**
 The report-run protocol as a state machine: one committed database, any number of invocations
 in flight, and one action per database interaction. Any interleaving, any exception and any
 crash is a run of this machine.

 Assumed: identifiers are fresh, a commit that raises committed nothing, logging does not raise,
 nothing is deleted, and sign-up never takes the service account's reserved address.
 */
module Protocol {
  import opened Base
  import opened Store
  import opened ScheduledReport
  import opened Transactions
  import Calendar
  import ReportBuilder
  import ReportLaws
  import Rules

  /** What a report was built from: the rows, out of the first `upTo` stored ones, and the clock. */
  datatype Source = Source(
    upTo: nat, rows: seq<Transaction>, clocks: ReportBuilder.Clocks, report: ReportBuilder.Report)

  /** Where an invocation stands between two database interactions. */
  datatype Phase =
    | Begun | NotFound | Inserted(account: UserId) | Refused
    | Identified | Cleared | Reusing(found: RunId)
    | Created(run: RunId) | Started(run: RunId) | Loaded(run: RunId, upTo: nat, rows: seq<Transaction>)
    | Built(run: RunId, source: Source) | Marked(run: RunId, source: Source) | Done(run: RunId)
    | Failing(run: RunId) | FailMarked(run: RunId) | Handled(run: RunId)
    | Gone
  {
    predicate Ended() {
      Reusing? || Done? || Handled? || Gone?
    }

    /** Inside the `try`, after the RUNNING row is committed. */
    predicate Working() {
      Started? || Loaded? || Built? || Marked?
    }
  }

  datatype Origin = ByEvent | ByApi

  datatype Invocation = Invocation(
    origin: Origin, period: Calendar.Period, version: string, user: Option<UserId>,
    startedAt: nat, readAt: Option<nat>, endedAt: Option<nat>, phase: Phase, pending: seq<Write>)

  /**
   The committed database and the invocations. The rest is bookkeeping: the number of steps so
   far, who created which run, when each was completed and from what, which user ids are taken,
   and who holds the unique index entry of an uncommitted account.
   */
  datatype State = State(
    db: Db, clock: nat, invs: seq<Invocation>, owner: map<RunId, nat>, completedAt: map<RunId, nat>,
    sources: map<RunId, Source>, taken: set<UserId>, lock: Option<nat>)

  function RuleSetOf(version: string): Rules.RuleSet {
    match Rules.GetRuleSet(version) case Some(r) => r case None => Rules.RULE_SET_V1
  }

  // ---- Actions ----

  datatype Action =
    | Invoke(origin: Origin, period: Calendar.Period, version: string, caller: Option<UserId>)
    | FindAccount(who: nat, seen: Option<UserId>)
    | InsertAccount(who: nat, account: UserId)
    | Reread(who: nat, seen: Option<UserId>)
    | CommitAccount(who: nat)
    | Check(who: nat, found: Option<RunId>)
    | CreateRun(who: nat, run: RunId, at: int)
    | CommitStart(who: nat)
    | Load(who: nat, rows: seq<Transaction>)
    | Build(who: nat, clocks: ReportBuilder.Clocks, report: ReportBuilder.Report)
    | Complete(who: nat, at: int, exports: Exports)
    | CommitReport(who: nat)
    | Raise(who: nat)
    | MarkFailed(who: nat, message: string, at: int)
    | CommitFailure(who: nat)
    | Vanish(who: nat)
    | Ingest(batch: seq<Transaction>)
    | SignUp(account: UserId, user: User)

  /** What `get_by_email` can return for the service address. */
  ghost predicate AccountRead(db: Db, found: Option<UserId>) {
    match found
    case Some(id) => IsAccount(db, id)
    case None => NoAccount(db)
  }

  ghost predicate Builds(sha: string -> string, inv: Invocation, src: Source) {
    && |src.clocks.perTransaction| == |src.rows|
    && ReportBuilder.BuildReport(sha, src.rows, RuleSetOf(inv.version), inv.period, src.clocks) == Ok(src.report)
  }

  // ---- When an action can happen ----

  predicate In(s: State, who: nat) {
    who < |s.invs|
  }

  ghost predicate CanInvoke(s: State, origin: Origin, version: string, caller: Option<UserId>) {
    && Rules.GetRuleSet(version).Some?
    && (origin == ByEvent ==> caller.None?)
    && (origin == ByApi ==> caller.Some? && caller.value in s.db.users && s.db.users[caller.value].active)
  }

  ghost predicate CanFindAccount(s: State, who: nat, seen: Option<UserId>) {
    In(s, who) && s.invs[who].phase.Begun? && AccountRead(s.db, seen)
  }

  /** The insert waits while another one of the same address is uncommitted. */
  ghost predicate CanInsertAccount(s: State, who: nat, account: UserId) {
    In(s, who) && s.invs[who].phase.NotFound? && s.lock.None? && account !in s.taken
  }

  /** Reading nothing would raise again; `RefusedFindsWinner` shows it cannot happen. */
  ghost predicate CanReread(s: State, who: nat, seen: Option<UserId>) {
    In(s, who) && s.invs[who].phase.Refused? && AccountRead(s.db, seen) && seen.Some?
  }

  predicate CanCommitAccount(s: State, who: nat) {
    In(s, who) && s.invs[who].phase.Inserted?
  }

  ghost predicate CanCheck(s: State, who: nat, found: Option<RunId>) {
    && In(s, who) && s.invs[who].phase.Identified? && s.invs[who].user.Some?
    && LatestCompleted(s.db, s.invs[who].period, s.invs[who].version, s.invs[who].user.value, found)
  }

  predicate CanCreateRun(s: State, who: nat, run: RunId) {
    In(s, who) && s.invs[who].phase.Cleared? && s.invs[who].user.Some? && run !in s.owner
  }

  predicate CanCommitStart(s: State, who: nat) {
    In(s, who) && s.invs[who].phase.Created?
  }

  ghost predicate CanLoad(s: State, who: nat, rows: seq<Transaction>) {
    && In(s, who) && s.invs[who].phase.Started?
    && ReportLaws.ListForPeriod(s.db.transactions, Calendar.Window(s.invs[who].period), rows)
  }

  ghost predicate CanBuild(
    sha: string -> string, s: State, who: nat, clocks: ReportBuilder.Clocks, report: ReportBuilder.Report)
  {
    && In(s, who) && s.invs[who].phase.Loaded?
    && Builds(sha, s.invs[who], Source(s.invs[who].phase.upTo, s.invs[who].phase.rows, clocks, report))
  }

  /** A value too wide for its column makes the flush raise instead. */
  predicate CanComplete(s: State, who: nat) {
    && In(s, who) && s.invs[who].phase.Built? && s.invs[who].phase.run in s.db.runs
    && ReportFits(s.invs[who].phase.source.report)
  }

  predicate CanCommitReport(s: State, who: nat) {
    In(s, who) && s.invs[who].phase.Marked?
  }

  predicate CanRaise(s: State, who: nat) {
    In(s, who) && s.invs[who].phase.Working()
  }

  predicate CanMarkFailed(s: State, who: nat) {
    In(s, who) && s.invs[who].phase.Failing? && s.invs[who].phase.run in s.db.runs
  }

  predicate CanCommitFailure(s: State, who: nat) {
    In(s, who) && s.invs[who].phase.FailMarked?
  }

  predicate CanVanish(s: State, who: nat) {
    In(s, who) && !s.invs[who].phase.Ended()
  }

  ghost predicate CanSignUp(s: State, account: UserId, user: User) {
    account !in s.taken && user.email != SERVICE_ACCOUNT_EMAIL && EmailFree(s.db, user.email)
  }

  ghost predicate CanDo(sha: string -> string, s: State, a: Action) {
    match a
    case Invoke(origin, _, version, caller) => CanInvoke(s, origin, version, caller)
    case FindAccount(who, seen) => CanFindAccount(s, who, seen)
    case InsertAccount(who, account) => CanInsertAccount(s, who, account)
    case Reread(who, seen) => CanReread(s, who, seen)
    case CommitAccount(who) => CanCommitAccount(s, who)
    case Check(who, found) => CanCheck(s, who, found)
    case CreateRun(who, run, _) => CanCreateRun(s, who, run)
    case CommitStart(who) => CanCommitStart(s, who)
    case Load(who, rows) => CanLoad(s, who, rows)
    case Build(who, clocks, report) => CanBuild(sha, s, who, clocks, report)
    case Complete(who, _, _) => CanComplete(s, who)
    case CommitReport(who) => CanCommitReport(s, who)
    case Raise(who) => CanRaise(s, who)
    case MarkFailed(who, _, _) => CanMarkFailed(s, who)
    case CommitFailure(who) => CanCommitFailure(s, who)
    case Vanish(who) => CanVanish(s, who)
    case Ingest(batch) => AllStorable(batch)
    case SignUp(account, user) => CanSignUp(s, account, user)
  }

  // ---- What an action does ----

  /** One invocation moves on, the database stays. */
  function Move(s: State, who: nat, inv: Invocation): State
    requires In(s, who)
  {
    s.(invs := s.invs[who := inv], clock := s.clock + 1)
  }

  /** One invocation commits its pending writes. */
  function Commit(s: State, who: nat, inv: Invocation): State
    requires In(s, who)
  {
    Move(s, who, inv.(pending := [])).(db := ApplyAll(s.db, s.invs[who].pending))
  }

  function DoInvoke(s: State, origin: Origin, period: Calendar.Period, version: string, caller: Option<UserId>): State {
    var phase := if origin == ByEvent then Begun else Cleared;
    s.(invs := s.invs + [Invocation(origin, period, version, caller, s.clock, None, None, phase, [])],
       clock := s.clock + 1)
  }

  function DoFindAccount(s: State, who: nat, seen: Option<UserId>): State
    requires In(s, who)
  {
    Move(s, who, s.invs[who].(phase := if seen.Some? then Identified else NotFound, user := seen))
  }

  /** The insert goes through, or the unique index refuses it and the savepoint is rolled back. */
  ghost function DoInsertAccount(s: State, who: nat, account: UserId): State
    requires In(s, who)
  {
    if NoAccount(s.db) then
      var inv := s.invs[who].(phase := Inserted(account), pending := [PutUser(account, ServiceUser())]);
      Move(s, who, inv).(taken := s.taken + {account}, lock := Some(who))
    else Move(s, who, s.invs[who].(phase := Refused))
  }

  function DoCommitAccount(s: State, who: nat): State
    requires CanCommitAccount(s, who)
  {
    Commit(s, who, s.invs[who].(phase := Identified, user := Some(s.invs[who].phase.account))).(lock := None)
  }

  function DoCheck(s: State, who: nat, found: Option<RunId>): State
    requires In(s, who)
  {
    var inv := s.invs[who].(readAt := Some(s.clock));
    Move(s, who, if found.Some? then inv.(phase := Reusing(found.value), endedAt := Some(s.clock))
                 else inv.(phase := Cleared))
  }

  /** The row `create_pending` adds. */
  function FirstRow(sha: string -> string, inv: Invocation, user: UserId, at: int): Run {
    NewRun(inv.period, inv.version, sha(Rules.RuleSetText(RuleSetOf(inv.version))), user, at)
  }

  function DoCreateRun(sha: string -> string, s: State, who: nat, run: RunId, at: int): State
    requires CanCreateRun(s, who, run)
  {
    var inv := s.invs[who];
    Move(s, who, inv.(phase := Created(run), pending := [PutRun(run, FirstRow(sha, inv, inv.user.value, at))]))
      .(owner := s.owner[run := who])
  }

  function DoCommitStart(s: State, who: nat): State
    requires CanCommitStart(s, who)
  {
    Commit(s, who, s.invs[who].(phase := Started(s.invs[who].phase.run)))
  }

  function DoLoad(s: State, who: nat, rows: seq<Transaction>): State
    requires In(s, who) && s.invs[who].phase.Started?
  {
    Move(s, who, s.invs[who].(phase := Loaded(s.invs[who].phase.run, |s.db.transactions|, rows)))
  }

  /** The report is computed and its rows are added to the session. */
  function DoBuild(s: State, who: nat, clocks: ReportBuilder.Clocks, report: ReportBuilder.Report): State
    requires In(s, who) && s.invs[who].phase.Loaded?
  {
    var inv := s.invs[who];
    var run := inv.phase.run;
    Move(s, who, inv.(phase := Built(run, Source(inv.phase.upTo, inv.phase.rows, clocks, report)),
                      pending := [AddItems(run, ItemRows(report)), AddAudit(run, report.audit)]))
  }

  function DoComplete(s: State, who: nat, at: int, exports: Exports): State
    requires CanComplete(s, who)
  {
    var inv := s.invs[who];
    var run, report := inv.phase.run, inv.phase.source.report;
    Move(s, who, inv.(phase := Marked(run, inv.phase.source),
                      pending := inv.pending + [PutRun(run, CompleteRun(s.db.runs[run], report, at, exports))]))
  }

  function DoCommitReport(s: State, who: nat): State
    requires CanCommitReport(s, who)
  {
    var run := s.invs[who].phase.run;
    Commit(s, who, s.invs[who].(phase := Done(run), endedAt := Some(s.clock)))
      .(completedAt := s.completedAt[run := s.clock], sources := s.sources[run := s.invs[who].phase.source])
  }

  /** Any exception inside the `try`: roll back. */
  function DoRaise(s: State, who: nat): State
    requires CanRaise(s, who)
  {
    Move(s, who, s.invs[who].(phase := Failing(s.invs[who].phase.run), pending := []))
  }

  function DoMarkFailed(s: State, who: nat, message: string, at: int): State
    requires CanMarkFailed(s, who)
  {
    var run := s.invs[who].phase.run;
    Move(s, who, s.invs[who].(phase := FailMarked(run), pending := [PutRun(run, FailRun(s.db.runs[run], message, at))]))
  }

  function DoCommitFailure(s: State, who: nat): State
    requires CanCommitFailure(s, who)
  {
    Commit(s, who, s.invs[who].(phase := Handled(s.invs[who].phase.run), endedAt := Some(s.clock)))
  }

  /** A crash anywhere, or an exception outside the `try`: the database drops the open transaction. */
  function DoVanish(s: State, who: nat): State
    requires In(s, who)
  {
    Move(s, who, s.invs[who].(phase := Gone, endedAt := Some(s.clock), pending := []))
      .(lock := if s.lock == Some(who) then None else s.lock)
  }

  function DoIngest(s: State, batch: seq<Transaction>): State {
    s.(db := s.db.(transactions := s.db.transactions + batch), clock := s.clock + 1)
  }

  function DoSignUp(s: State, account: UserId, user: User): State {
    s.(db := s.db.(users := s.db.users[account := user]), taken := s.taken + {account}, clock := s.clock + 1)
  }

  ghost function Do(sha: string -> string, s: State, a: Action): State
    requires CanDo(sha, s, a)
  {
    match a
    case Invoke(origin, period, version, caller) => DoInvoke(s, origin, period, version, caller)
    case FindAccount(who, seen) => DoFindAccount(s, who, seen)
    case InsertAccount(who, account) => DoInsertAccount(s, who, account)
    case Reread(who, seen) => DoFindAccount(s, who, seen)
    case CommitAccount(who) => DoCommitAccount(s, who)
    case Check(who, found) => DoCheck(s, who, found)
    case CreateRun(who, run, at) => DoCreateRun(sha, s, who, run, at)
    case CommitStart(who) => DoCommitStart(s, who)
    case Load(who, rows) => DoLoad(s, who, rows)
    case Build(who, clocks, report) => DoBuild(s, who, clocks, report)
    case Complete(who, at, exports) => DoComplete(s, who, at, exports)
    case CommitReport(who) => DoCommitReport(s, who)
    case Raise(who) => DoRaise(s, who)
    case MarkFailed(who, message, at) => DoMarkFailed(s, who, message, at)
    case CommitFailure(who) => DoCommitFailure(s, who)
    case Vanish(who) => DoVanish(s, who)
    case Ingest(batch) => DoIngest(s, batch)
    case SignUp(account, user) => DoSignUp(s, account, user)
  }

  // ---- Runs of the machine ----

  /** Nothing invoked yet, no run recorded; users and stored transactions are arbitrary. */
  ghost predicate Initial(s: State) {
    && s.clock == 0 && s.invs == [] && s.owner == map[] && s.completedAt == map[] && s.sources == map[]
    && s.lock == None && s.db.runs == map[] && s.db.items == map[] && s.db.audit == map[]
    && s.db.users.Keys <= s.taken && UniqueEmails(s.db) && AllStorable(s.db.transactions)
    && (forall id :: IsAccount(s.db, id) ==> !s.db.users[id].active)
  }

  ghost predicate Runs(sha: string -> string, s: State, acts: seq<Action>, t: State)
    decreases |acts|
  {
    if acts == [] then t == s
    else CanDo(sha, s, acts[0]) && Runs(sha, Do(sha, s, acts[0]), acts[1..], t)
  }

  ghost predicate Reachable(sha: string -> string, s: State) {
    exists s0, acts :: Initial(s0) && Runs(sha, s0, acts, s)
  }
}
