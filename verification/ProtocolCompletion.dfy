/**
 Exactly when an invocation can still complete over the transactions stored now, and exactly when
 two of them both can: the idempotency check stops a second completion only if it reads after the
 first.
 */
module ProtocolCompletion {
  import opened Base
  import opened CommittedReports
  import opened Protocol
  import opened ProtocolInvariant
  import opened ProtocolLaws
  import opened ProtocolProgress
  import opened ProtocolSteps
  import opened ScheduledReport
  import opened Store
  import opened Transactions
  import Aggregation
  import AggregationLaws
  import Calendar
  import Fingerprint
  import ReportBuilder
  import ReportLaws
  import Rules
  import Sorting

  // ---- Which invocations can still complete ----

  predicate PreCheck(p: Phase) {
    p.Begun? || p.NotFound? || p.Inserted? || p.Refused? || p.Identified?
  }

  /** The rows the period holds now would give a storable report. */
  ghost predicate StoreFits(s: State, period: Calendar.Period) {
    Fitting(Filter(s.db.transactions, ReportLaws.InSpan(Calendar.Window(period))))
  }

  /** No service run of the period and version is completed yet. */
  ghost predicate NoneCompleted(s: State, period: Calendar.Period, version: string) {
    forall id :: ServiceReport(s, id) ==> !(s.db.runs[id].period == period && s.db.runs[id].version == version)
  }

  ghost predicate AbleIn(s: State, period: Calendar.Period, version: string, phase: Phase) {
    match phase
    case Cleared => StoreFits(s, period)
    case Created(_) => StoreFits(s, period)
    case Started(_) => StoreFits(s, period)
    case Loaded(_, _, rows) => Fitting(rows)
    case Built(_, src) => Fitting(src.rows)
    case Marked(_, src) => Fitting(src.rows)
    case Done(_) => true
    case _ => PreCheck(phase) && NoneCompleted(s, period, version) && StoreFits(s, period)
  }

  /**
   Before its check an invocation needs that nothing is completed; before loading, that the
   stored rows fit; after loading, that the loaded ones do. A reused, failed or vanished one is
   past completing.
   */
  ghost predicate Able(s: State, i: nat)
    requires In(s, i)
  {
    AbleIn(s, s.invs[i].period, s.invs[i].version, s.invs[i].phase)
  }

  /** Order does not decide whether rows fit. */
  lemma FittingPermutes(xs: seq<Transaction>, ys: seq<Transaction>)
    requires multiset(xs) == multiset(ys)
    ensures Fitting(xs) <==> Fitting(ys)
  {
    hide ReportLaws.ClassifyV1, Aggregation.SortedKeys, AggregationLaws.GroupTotal;
    var f := ReportLaws.ClassifyV1();
    PermutedLength(xs, ys);
    MapPermutes(xs, ys, f);
    AggregationLaws.SortedKeysPermute(Map(xs, f), Map(ys, f));
    forall k
      ensures AggregationLaws.GroupTotal(Map(xs, f), k) == AggregationLaws.GroupTotal(Map(ys, f), k)
    {
      TotalsPermute(Map(xs, f), Map(ys, f), k);
    }
  }

  lemma TotalsPermute(cs: seq<Classified>, ds: seq<Classified>, k: Aggregation.Key)
    requires multiset(cs) == multiset(ds)
    ensures AggregationLaws.GroupTotal(cs, k) == AggregationLaws.GroupTotal(ds, k)
  {
    hide Aggregation.Group, Sum;
    AggregationLaws.GroupPermutes(cs, ds, k);
    MapPermutes(Aggregation.Group(cs, k), Aggregation.Group(ds, k), Aggregation.CentsOf());
    SumPermutes(Aggregation.Amounts(Aggregation.Group(cs, k)), Aggregation.Amounts(Aggregation.Group(ds, k)));
  }

  lemma LoadFits(s: State, period: Calendar.Period, rows: seq<Transaction>)
    requires ReportLaws.ListForPeriod(s.db.transactions, Calendar.Window(period), rows)
    ensures Fitting(rows) <==> StoreFits(s, period)
  {
    hide Fitting, ReportLaws.InSpan;
    FittingPermutes(rows, Filter(s.db.transactions, ReportLaws.InSpan(Calendar.Window(period))));
  }

  // ---- Nobody becomes able ----

  lemma {:induction false} WritesKeepTransactions(db: Db, ws: seq<Write>)
    ensures ApplyAll(db, ws).transactions == db.transactions
    decreases |ws|
  {
    if ws != [] {
      WritesKeepTransactions(Apply(db, ws[0]), ws[1..]);
    }
  }

  lemma CommitsKeepTransactions(sha: string -> string, s: State, a: Action)
    requires CanDo(sha, s, a) && (a.CommitAccount? || a.CommitStart? || a.CommitReport? || a.CommitFailure?)
    ensures Do(sha, s, a).db.transactions == s.db.transactions
  {
    hide ApplyAll;
    WritesKeepTransactions(s.db, s.invs[a.who].pending);
  }

  lemma TransactionsKept(sha: string -> string, s: State, a: Action)
    requires CanDo(sha, s, a) && !a.Ingest?
    ensures Do(sha, s, a).db.transactions == s.db.transactions
  {
    hide LatestCompleted, AccountRead, NoAccount, ItemRows, Builds, ReportLaws.ListForPeriod, ReportFits, CompleteRun,
         FailRun, FirstRow, EmailFree;
    if a.CommitAccount? || a.CommitStart? || a.CommitReport? || a.CommitFailure? {
      CommitsKeepTransactions(sha, s, a);
    } else if AccountAction(a) {
      match a
      case FindAccount(_, _) =>
      case InsertAccount(_, _) =>
      case Reread(_, _) =>
      case Check(_, _) =>
    } else if WorkAction(a) {
      match a
      case CreateRun(_, _, _) =>
      case Load(_, _) =>
      case Build(_, _, _) =>
      case Complete(_, _, _) =>
      case Raise(_) =>
      case MarkFailed(_, _, _) =>
    }
  }

  /** A completed service run stays one. */
  lemma ServiceReportKept(sha: string -> string, s: State, a: Action, id: RunId)
    requires Inv(sha, s) && CanDo(sha, s, a) && ServiceReport(s, id)
    ensures ServiceReport(Do(sha, s, a), id) && Do(sha, s, a).db.runs[id] == s.db.runs[id]
  {
    hide Inv, CanDo, Do, RunsGrow;
    StepInv(sha, s, a);
    TerminalStepFrozen(sha, s, a, id);
  }

  lemma NoneCompletedBefore(sha: string -> string, s: State, a: Action, period: Calendar.Period, version: string)
    requires Inv(sha, s) && CanDo(sha, s, a) && NoneCompleted(Do(sha, s, a), period, version)
    ensures NoneCompleted(s, period, version)
  {
    hide Inv, CanDo, Do;
    forall id | ServiceReport(s, id)
      ensures !(s.db.runs[id].period == period && s.db.runs[id].version == version)
    {
      ServiceReportKept(sha, s, a, id);
    }
  }

  /** What held of a phase after a step held of it before. */
  lemma AbleInBefore(
    sha: string -> string, s: State, a: Action, period: Calendar.Period, version: string, phase: Phase)
    requires Inv(sha, s) && CanDo(sha, s, a) && !a.Ingest? && AbleIn(Do(sha, s, a), period, version, phase)
    ensures AbleIn(s, period, version, phase)
  {
    hide Inv, CanDo, Do, Fitting, NoneCompleted;
    TransactionsKept(sha, s, a);
    if PreCheck(phase) {
      NoneCompletedBefore(sha, s, a, period, version);
    }
  }

  /** How the steps of an invocation change its own phase, up to its check. */
  lemma AccountStepPhases(sha: string -> string, s: State, a: Action)
    requires CanDo(sha, s, a) && AccountAction(a) && !a.Check?
    ensures !a.Invoke? && !a.Ingest? && !a.SignUp?
    ensures In(s, a.who) && In(Do(sha, s, a), a.who)
    ensures PreCheck(s.invs[a.who].phase) && PreCheck(Do(sha, s, a).invs[a.who].phase)
  {
    hide AccountRead, NoAccount, ApplyAll;
    match a
    case FindAccount(_, _) =>
    case InsertAccount(_, _) =>
    case Reread(_, _) =>
    case CommitAccount(_) =>
  }

  lemma CheckAble(sha: string -> string, s: State, who: nat, found: Option<RunId>)
    requires Inv(sha, s) && CanCheck(s, who, found) && Able(DoCheck(s, who, found), who)
    ensures Able(s, who)
  {
    hide Fitting, Global, CheckedBefore;
    assert found.None?;
    assert Local(sha, s, who);
    var inv := s.invs[who];
    forall id | ServiceReport(s, id)
      ensures !(s.db.runs[id].period == inv.period && s.db.runs[id].version == inv.version)
    {
      SameAccount(sha, s, s.db.runs[id].user, inv.user.value);
    }
  }

  lemma SameAccount(sha: string -> string, s: State, u: UserId, v: UserId)
    requires Inv(sha, s) && IsAccount(s.db, u) && IsAccount(s.db, v)
    ensures u == v
  {
    hide Local, RunOk, NoRows;
  }

  lemma LoadAble(sha: string -> string, s: State, who: nat, rows: seq<Transaction>)
    requires CanLoad(s, who, rows) && Able(DoLoad(s, who, rows), who)
    ensures Able(s, who)
  {
    hide Fitting, ReportLaws.ListForPeriod, StoreFits;
    LoadFits(s, s.invs[who].period, rows);
  }

  lemma CommitReportAble(sha: string -> string, s: State, who: nat)
    requires Inv(sha, s) && CanCommitReport(s, who)
    ensures Able(s, who)
  {
    hide Inv, Fitting, Builds, FromSnapshot, ReportFits, AllStorable;
    var run, src, row := MarkedFacts(sha, s, who);
    StoreIsStorable(sha, s);
    ReportFitsIffFitting(sha, s, s.invs[who], src);
  }

  lemma StoreIsStorable(sha: string -> string, s: State)
    requires Inv(sha, s)
    ensures AllStorable(s.db.transactions)
  {
    hide Local, RunOk, NoRows, AllStorable;
  }

  /** After loading, the rows stay the same up to the commit. */
  lemma WorkStepAble(sha: string -> string, s: State, a: Action)
    requires CanDo(sha, s, a) && (a.Build? || a.Complete? || a.Raise? || a.MarkFailed? || a.CreateRun?)
    requires In(Do(sha, s, a), a.who) && Able(Do(sha, s, a), a.who)
    ensures Able(s, a.who)
  {
    hide CanDo, Do, Able;
    if a.Build? || a.Complete? {
      BuildStepAble(sha, s, a);
    } else {
      OtherWorkStepAble(sha, s, a);
    }
  }

  lemma BuildStepAble(sha: string -> string, s: State, a: Action)
    requires CanDo(sha, s, a) && (a.Build? || a.Complete?)
    requires In(Do(sha, s, a), a.who) && Able(Do(sha, s, a), a.who)
    ensures Able(s, a.who)
  {
    hide Fitting, StoreFits, NoneCompleted, Builds, ReportFits, ItemRows, CompleteRun;
    match a
    case Build(_, _, _) =>
    case Complete(_, _, _) =>
  }

  lemma OtherWorkStepAble(sha: string -> string, s: State, a: Action)
    requires CanDo(sha, s, a) && (a.Raise? || a.MarkFailed? || a.CreateRun?)
    requires In(Do(sha, s, a), a.who) && Able(Do(sha, s, a), a.who)
    ensures Able(s, a.who)
  {
    hide Fitting, NoneCompleted, FailRun, FirstRow;
    match a
    case Raise(_) =>
    case MarkFailed(_, _, _) =>
    case CreateRun(_, _, _) =>
  }

  lemma CommitStepPhases(sha: string -> string, s: State, a: Action)
    requires CanDo(sha, s, a) && (a.CommitStart? || a.CommitFailure? || a.Vanish?)
    ensures In(s, a.who) && In(Do(sha, s, a), a.who)
    ensures var p, q := s.invs[a.who].phase, Do(sha, s, a).invs[a.who].phase;
            if a.CommitStart? then p.Created? && q.Started? else q.Handled? || q.Gone?
  {
    hide ApplyAll;
  }

  /** One's own step can only lose the ability to complete. */
  lemma OwnStepAble(sha: string -> string, s: State, a: Action)
    requires Inv(sha, s) && CanDo(sha, s, a) && 0 <= Actor(s, a) < |s.invs|
    requires In(Do(sha, s, a), Actor(s, a)) && Able(Do(sha, s, a), Actor(s, a))
    ensures Able(s, Actor(s, a))
  {
    hide Inv, Fitting, NoneCompleted, StoreFits, DoCheck, DoLoad;
    StepInv(sha, s, a);
    var t, i: nat := Do(sha, s, a), a.who;
    assert SameCall(s.invs[i], t.invs[i]);
    if AccountAction(a) && !a.Check? {
      AccountStepPhases(sha, s, a);
      AbleInBefore(sha, s, a, s.invs[i].period, s.invs[i].version, t.invs[i].phase);
    } else if a.CommitStart? || a.CommitFailure? || a.Vanish? {
      CommitStepPhases(sha, s, a);
      AbleInBefore(sha, s, a, s.invs[i].period, s.invs[i].version, t.invs[i].phase);
    } else if a.Check? {
      CheckAble(sha, s, i, a.found);
    } else if a.Load? {
      LoadAble(sha, s, i, a.rows);
    } else if a.CommitReport? {
      CommitReportAble(sha, s, i);
    } else {
      WorkStepAble(sha, s, a);
    }
  }

  /** No step, short of ingesting rows, makes anyone able to complete who was not. */
  lemma StepAble(sha: string -> string, s: State, a: Action, i: nat)
    requires Inv(sha, s) && CanDo(sha, s, a) && !a.Ingest? && In(s, i)
    requires In(Do(sha, s, a), i) && Able(Do(sha, s, a), i)
    ensures Able(s, i)
  {
    hide Inv, CanDo, Do, AbleIn, UsersGrow, RunsGrow;
    StepInv(sha, s, a);
    if Actor(s, a) == i {
      OwnStepAble(sha, s, a);
    } else {
      assert Do(sha, s, a).invs[i] == s.invs[i];
      AbleInBefore(sha, s, a, s.invs[i].period, s.invs[i].version, s.invs[i].phase);
    }
  }

  /** No rows are ingested along the way. */
  ghost predicate NoIngest(acts: seq<Action>) {
    forall a :: a in acts ==> !a.Ingest?
  }

  lemma {:induction false} AbleFromTheStart(sha: string -> string, s: State, acts: seq<Action>, t: State, i: nat)
    requires Inv(sha, s) && Runs(sha, s, acts, t) && NoIngest(acts) && In(s, i)
    requires In(t, i) && Able(t, i)
    ensures Able(s, i)
    decreases |acts|
  {
    hide Inv, CanDo, Do, Able;
    if acts != [] {
      var m := Do(sha, s, acts[0]);
      StepInv(sha, s, acts[0]);
      MoreInvocations(s, m, Actor(s, acts[0]), i);
      assert acts[0] in acts && forall a :: a in acts[1..] ==> a in acts;
      AbleFromTheStart(sha, m, acts[1..], t, i);
      StepAble(sha, s, acts[0], i);
    }
  }

  lemma MoreInvocations(s: State, t: State, who: int, i: nat)
    requires Evolves(s, t, who) && In(s, i)
    ensures In(t, i)
  {
    hide UsersGrow, RunsGrow;
  }

  // ---- An able invocation can complete ----

  /** Some text that is not in use. */
  lemma UnusedText(used: set<string>) returns (id: string)
    ensures id !in used
  {
    var left, n: nat := used, 0;
    while left != {}
      invariant left <= used
      invariant forall u :: u in used && u !in left ==> |u| < n
      decreases left
    {
      var u :| u in left;
      left := left - {u};
      n := if |u| < n then n else |u| + 1;
    }
    id := seq(n, _ => 'x');
  }

  function Rank(p: Phase): nat {
    match p
    case Begun => 11
    case NotFound => 10
    case Inserted(_) => 9
    case Refused => 9
    case Identified => 8
    case Cleared => 7
    case Created(_) => 6
    case Started(_) => 5
    case Loaded(_, _, _) => 4
    case Built(_, _) => 3
    case Marked(_, _) => 2
    case _ => 1
  }

  /** Steps left, counting a held account lock. */
  function Remaining(s: State, i: nat): nat
    requires In(s, i)
  {
    2 * Rank(s.invs[i].phase) + (if s.lock.Some? then 1 else 0)
  }

  /** The steps by which an invocation is driven on: its own, or the commit of an account it waits for. */
  ghost predicate Drives(sha: string -> string, s: State, i: nat, a: Action) {
    && CanDo(sha, s, a) && In(s, i) && !a.Ingest?
    && (a.CommitAccount? || (Actor(s, a) == i && !a.Raise? && !a.Vanish? && !a.MarkFailed? && !a.CommitFailure?))
    && (a.CommitReport? ==> s.invs[i].phase.Marked?) && (a.Check? ==> a.found.None?)
    && |Do(sha, s, a).invs| == |s.invs|
    && Remaining(Do(sha, s, a), i) < Remaining(s, i)
    && (PreCheck(s.invs[i].phase) || Actor(s, a) == i)
  }

  lemma DriveBegun(sha: string -> string, s: State, i: nat) returns (a: Action)
    requires In(s, i) && s.invs[i].phase.Begun?
    ensures Drives(sha, s, i, a) && a.FindAccount?
  {
    if NoAccount(s.db) {
      a := FindAccount(i, None);
    } else {
      var u := SomeAccount(s.db);
      a := FindAccount(i, Some(u));
    }
  }

  lemma DriveRefused(sha: string -> string, s: State, i: nat) returns (a: Action)
    requires In(s, i) && s.invs[i].phase.Refused? && !NoAccount(s.db)
    ensures Drives(sha, s, i, a) && a.Reread?
  {
    var u := SomeAccount(s.db);
    a := Reread(i, Some(u));
  }

  lemma DriveInserted(sha: string -> string, s: State, i: nat) returns (a: Action)
    requires In(s, i) && s.invs[i].phase.Inserted? && s.lock == Some(i)
    ensures Drives(sha, s, i, a) && a.CommitAccount?
  {
    hide ApplyAll;
    a := CommitAccount(i);
  }

  lemma DriveInsert(sha: string -> string, s: State, i: nat) returns (a: Action)
    requires In(s, i) && s.invs[i].phase.NotFound? && s.lock.None?
    ensures Drives(sha, s, i, a) && a.InsertAccount?
  {
    hide NoAccount;
    var id := UnusedText(s.taken);
    a := InsertAccount(i, id);
  }

  lemma DriveHolder(sha: string -> string, s: State, i: nat) returns (a: Action)
    requires In(s, i) && s.invs[i].phase.NotFound? && s.lock.Some? && CanCommitAccount(s, s.lock.value)
    ensures Drives(sha, s, i, a) && a.CommitAccount?
  {
    hide ApplyAll;
    a := CommitAccount(s.lock.value);
  }

  lemma AccountPhaseFacts(sha: string -> string, s: State, i: nat)
    requires Inv(sha, s) && In(s, i)
    ensures s.invs[i].phase.Refused? ==> !NoAccount(s.db)
    ensures s.invs[i].phase.Inserted? ==> s.lock == Some(i)
  {
    hide Global, CheckedBefore;
    assert Local(sha, s, i);
  }

  lemma DriveAccount(sha: string -> string, s: State, i: nat) returns (a: Action)
    requires Inv(sha, s) && In(s, i) && PreCheck(s.invs[i].phase) && !s.invs[i].phase.Identified?
    ensures Drives(sha, s, i, a) && AccountAction(a) && !a.Check?
  {
    hide Inv, Drives, NoAccount;
    AccountPhaseFacts(sha, s, i);
    match s.invs[i].phase
    case Begun => a := DriveBegun(sha, s, i);
    case Refused => a := DriveRefused(sha, s, i);
    case Inserted(_) => a := DriveInserted(sha, s, i);
    case NotFound =>
      if s.lock.None? {
        a := DriveInsert(sha, s, i);
      } else {
        HolderInserted(sha, s);
        a := DriveHolder(sha, s, i);
      }
  }

  lemma HolderInserted(sha: string -> string, s: State)
    requires Inv(sha, s) && s.lock.Some?
    ensures CanCommitAccount(s, s.lock.value)
  {
    hide Local, RunOk, NoRows, UniqueEmails;
  }

  lemma DriveCheck(sha: string -> string, s: State, i: nat) returns (a: Action)
    requires Inv(sha, s) && In(s, i) && s.invs[i].phase.Identified? && Able(s, i)
    ensures Drives(sha, s, i, a) && a == Check(i, None)
  {
    hide Global, CheckedBefore, StoreFits;
    assert Local(sha, s, i);
    a := Check(i, None);
    var inv := s.invs[i];
    forall id | id in s.db.runs
      ensures !Answers(s.db.runs[id], inv.period, inv.version, inv.user.value)
    {
      assert ServiceReport(s, id) ==> !(s.db.runs[id].period == inv.period && s.db.runs[id].version == inv.version);
    }
  }

  lemma DriveCreate(sha: string -> string, s: State, i: nat) returns (a: Action)
    requires In(s, i) && s.invs[i].phase.Cleared? && s.invs[i].user.Some?
    ensures Drives(sha, s, i, a) && a.CreateRun?
  {
    hide FirstRow;
    var run := UnusedText(s.owner.Keys);
    a := CreateRun(i, run, 0);
  }

  lemma DriveStart(sha: string -> string, s: State, i: nat) returns (a: Action)
    requires In(s, i) && s.invs[i].phase.Created?
    ensures Drives(sha, s, i, a) && a.CommitStart?
  {
    hide ApplyAll;
    a := CommitStart(i);
  }

  lemma ClearedHasUser(sha: string -> string, s: State, i: nat)
    requires Inv(sha, s) && In(s, i) && s.invs[i].phase.Cleared?
    ensures s.invs[i].user.Some?
  {
    hide Global;
    assert Local(sha, s, i);
  }

  function NoClock(n: nat): ReportBuilder.Clocks {
    ReportBuilder.Clocks(0, seq(n, _ => 0), 0, 0, 0)
  }

  lemma DriveLoad(sha: string -> string, s: State, i: nat) returns (a: Action)
    requires Inv(sha, s) && In(s, i) && s.invs[i].phase.Started? && Able(s, i)
    ensures Drives(sha, s, i, a) && a.Load?
  {
    hide Inv, StoreFits, ReportLaws.ListForPeriod, Calendar.Window;
    var rows := SomeLoad(s.db.transactions, Calendar.Window(s.invs[i].period));
    a := Load(i, rows);
  }

  lemma SomeLoad(store: seq<Transaction>, w: Calendar.Span) returns (rows: seq<Transaction>)
    ensures ReportLaws.ListForPeriod(store, w, rows)
  {
    hide ReportLaws.ListForPeriod;
    rows := Sorting.StableSort(Filter(store, ReportLaws.InSpan(w)), Fingerprint.RankLe(Fingerprint.ByTime()));
    ReportLaws.LoadExists(store, w, rows);
  }

  lemma DriveBuild(sha: string -> string, s: State, i: nat) returns (a: Action)
    requires Inv(sha, s) && In(s, i) && s.invs[i].phase.Loaded?
    ensures Drives(sha, s, i, a) && a.Build?
  {
    hide Inv, ReportBuilder.BuildReport, ItemRows;
    var inv := s.invs[i];
    var rows := inv.phase.rows;
    AlwaysBuilds(sha, rows, inv.period, NoClock(|rows|));
    var built := ReportBuilder.BuildReport(sha, rows, RuleSetOf(inv.version), inv.period, NoClock(|rows|));
    a := Build(i, NoClock(|rows|), built.value);
  }

  lemma AlwaysBuilds(
    sha: string -> string, rows: seq<Transaction>, period: Calendar.Period, clocks: ReportBuilder.Clocks)
    requires |clocks.perTransaction| == |rows|
    ensures ReportBuilder.BuildReport(sha, rows, Rules.RULE_SET_V1, period, clocks).Ok?
  {
    hide Rules.Run, Aggregation.LineItems, Fingerprint.CanonicalText, Rules.RuleSetText;
    ReportLaws.RunV1(rows, clocks.perTransaction);
  }

  lemma DriveComplete(sha: string -> string, s: State, i: nat) returns (a: Action)
    requires CanComplete(s, i)
    ensures Drives(sha, s, i, a) && a.Complete?
  {
    hide ReportFits, ItemRows, CompleteRun;
    a := Complete(i, 0, NO_EXPORTS);
  }

  lemma DriveCommit(sha: string -> string, s: State, i: nat) returns (a: Action)
    requires In(s, i) && s.invs[i].phase.Marked?
    ensures Drives(sha, s, i, a) && a.CommitReport?
  {
    hide ApplyAll;
    a := CommitReport(i);
  }

  lemma BuiltCanComplete(sha: string -> string, s: State, i: nat)
    requires Inv(sha, s) && In(s, i) && s.invs[i].phase.Built? && Able(s, i)
    ensures CanComplete(s, i)
  {
    hide Global, CheckedBefore, Fitting, Builds, FromSnapshot, ReportFits, ItemRows, AllStorable;
    assert Local(sha, s, i);
    StoreIsStorable(sha, s);
    ReportFitsIffFitting(sha, s, s.invs[i], s.invs[i].phase.source);
  }

  /** An able invocation has a step that brings it closer to completion. */
  lemma Drive(sha: string -> string, s: State, i: nat) returns (a: Action)
    requires Inv(sha, s) && In(s, i) && Able(s, i) && !s.invs[i].phase.Done?
    ensures Drives(sha, s, i, a)
  {
    hide Inv, Drives, Fitting, StoreFits, NoneCompleted;
    var p := s.invs[i].phase;
    if PreCheck(p) && !p.Identified? {
      a := DriveAccount(sha, s, i);
    } else if p.Identified? {
      a := DriveCheck(sha, s, i);
    } else if p.Cleared? {
      ClearedHasUser(sha, s, i);
      a := DriveCreate(sha, s, i);
    } else if p.Created? {
      a := DriveStart(sha, s, i);
    } else if p.Started? {
      a := DriveLoad(sha, s, i);
    } else if p.Loaded? {
      a := DriveBuild(sha, s, i);
    } else if p.Built? {
      BuiltCanComplete(sha, s, i);
      a := DriveComplete(sha, s, i);
    } else {
      a := DriveCommit(sha, s, i);
    }
  }

  /** Whatever completes nothing leaves a key uncompleted. */
  lemma NoneCompletedAfter(sha: string -> string, s: State, a: Action, period: Calendar.Period, version: string)
    requires Inv(sha, s) && CanDo(sha, s, a) && !a.CommitReport? && !a.CommitFailure?
    requires NoneCompleted(s, period, version)
    ensures NoneCompleted(Do(sha, s, a), period, version)
  {
    hide Inv, CanDo, Do, RunsGrow, IsAccount;
    var t := Do(sha, s, a);
    StepInv(sha, s, a);
    forall id | ServiceReport(t, id)
      ensures !(t.db.runs[id].period == period && t.db.runs[id].version == version)
    {
      CompletedWasThere(sha, s, a, id);
      RunUserExists(sha, s, id);
      AccountWasThere(s, t, Actor(s, a), s.db.runs[id].user);
    }
  }

  lemma CompletedWasThere(sha: string -> string, s: State, a: Action, id: RunId)
    requires Inv(sha, s) && CanDo(sha, s, a) && !a.CommitReport? && !a.CommitFailure?
    requires id in Do(sha, s, a).db.runs && Do(sha, s, a).db.runs[id].status == Completed
    ensures id in s.db.runs && s.db.runs[id] == Do(sha, s, a).db.runs[id]
  {
    hide Inv, CheckedBefore;
    if a.CommitStart? {
      var run, row := CreatedFacts(sha, s, a.who);
    } else {
      hide Do, CanDo;
      OthersChangeNoRow(sha, s, a);
    }
  }

  lemma AccountWasThere(s: State, t: State, who: int, u: UserId)
    requires UsersGrow(s, t, who) && u in s.db.users && IsAccount(t.db, u)
    ensures IsAccount(s.db, u)
  {
  }

  /** A step that completes nothing leaves a phase as able as it was. */
  lemma AbleInAfter(
    sha: string -> string, s: State, a: Action, period: Calendar.Period, version: string, phase: Phase)
    requires Inv(sha, s) && CanDo(sha, s, a) && !a.Ingest? && AbleIn(s, period, version, phase)
    requires PreCheck(phase) ==> !a.CommitReport? && !a.CommitFailure?
    ensures AbleIn(Do(sha, s, a), period, version, phase)
  {
    hide Inv, CanDo, Do, Fitting, NoneCompleted;
    TransactionsKept(sha, s, a);
    if PreCheck(phase) {
      NoneCompletedAfter(sha, s, a, period, version);
    }
  }

  lemma PreCheckAlike(s: State, period: Calendar.Period, version: string, p: Phase, q: Phase)
    requires PreCheck(p) && PreCheck(q)
    ensures AbleIn(s, period, version, p) <==> AbleIn(s, period, version, q)
  {
    hide StoreFits, NoneCompleted;
  }

  /** Driving an invocation by its own steps keeps it able. */
  lemma OwnDriveAble(sha: string -> string, s: State, i: nat, a: Action)
    requires Inv(sha, s) && Drives(sha, s, i, a) && Able(s, i) && Actor(s, a) == i
    ensures In(Do(sha, s, a), i) && Able(Do(sha, s, a), i)
  {
    hide *;
    DrivesCan(sha, s, i, a);
    ActorIsInvocation(s, i, a);
    var t, inv := Do(sha, s, a), s.invs[i];
    StepInv(sha, s, a);
    SameCallOf(s, t, i);
    TransactionsKept(sha, s, a);
    if WaitsForAccount(a) {
      AccountStepPhases(sha, s, a);
      AbleMeans(s, i);
      AbleMeans(t, i);
      AbleInAfter(sha, s, a, inv.period, inv.version, inv.phase);
      PreCheckAlike(t, inv.period, inv.version, inv.phase, t.invs[i].phase);
    } else {
      OwnWorkAble(sha, s, i, a);
    }
  }

  predicate WaitsForAccount(a: Action) {
    AccountAction(a) && !a.Check?
  }

  lemma ActorIsInvocation(s: State, i: nat, a: Action)
    requires In(s, i) && Actor(s, a) == i
    ensures !a.Invoke? && !a.Ingest? && !a.SignUp? && a.who == i
    ensures WaitsForAccount(a) ==> AccountAction(a) && !a.Check? && !a.CommitReport? && !a.CommitFailure?
    ensures !WaitsForAccount(a) ==> !a.CommitAccount?
    ensures !WaitsForAccount(a) && !a.Raise? && !a.Vanish? && !a.MarkFailed? && !a.CommitFailure? ==>
              a.Check? || a.CreateRun? || a.CommitStart? || a.Load? || a.Build? || a.Complete? || a.CommitReport?
  {
  }

  lemma SameCallOf(s: State, t: State, i: nat)
    requires In(s, i) && Evolves(s, t, i) && |t.invs| == |s.invs|
    ensures In(t, i) && t.invs[i].period == s.invs[i].period && t.invs[i].version == s.invs[i].version
  {
    hide UsersGrow, RunsGrow;
  }

  lemma AbleMeans(s: State, i: nat)
    requires In(s, i)
    ensures Able(s, i) <==> AbleIn(s, s.invs[i].period, s.invs[i].version, s.invs[i].phase)
  {
    hide AbleIn;
  }

  lemma DrivesCan(sha: string -> string, s: State, i: nat, a: Action)
    requires Drives(sha, s, i, a)
    ensures CanDo(sha, s, a) && In(s, i) && i < |s.invs| && !a.Ingest? && |Do(sha, s, a).invs| == |s.invs|
    ensures Remaining(Do(sha, s, a), i) < Remaining(s, i) && (PreCheck(s.invs[i].phase) || Actor(s, a) == i)
    ensures a.CommitAccount? || (Actor(s, a) == i && !a.Raise? && !a.Vanish? && !a.MarkFailed? && !a.CommitFailure?)
    ensures (a.CommitReport? ==> s.invs[i].phase.Marked?) && (a.Check? ==> a.found.None?)
  {
    hide CanDo, Do;
  }

  lemma OwnWorkAble(sha: string -> string, s: State, i: nat, a: Action)
    requires CanDo(sha, s, a) && Actor(s, a) == i && In(s, i) && Able(s, i)
    requires a.Check? || a.CreateRun? || a.CommitStart? || a.Load? || a.Build? || a.Complete? || a.CommitReport?
    requires In(Do(sha, s, a), i) && Do(sha, s, a).db.transactions == s.db.transactions
    requires a.Check? ==> a.found.None?
    ensures Able(Do(sha, s, a), i)
  {
    hide CanDo, Do, Able;
    if a.Check? || a.CreateRun? || a.CommitStart? || a.Load? {
      EarlyWorkAble(sha, s, i, a);
    } else {
      LateWorkAble(sha, s, i, a);
    }
  }

  lemma EarlyWorkAble(sha: string -> string, s: State, i: nat, a: Action)
    requires CanDo(sha, s, a) && Actor(s, a) == i && In(s, i) && Able(s, i)
    requires a.Check? || a.CreateRun? || a.CommitStart? || a.Load?
    requires In(Do(sha, s, a), i) && Do(sha, s, a).db.transactions == s.db.transactions
    requires a.Check? ==> a.found.None?
    ensures Able(Do(sha, s, a), i)
  {
    hide Fitting, NoneCompleted, LatestCompleted, ReportLaws.ListForPeriod, FirstRow, ApplyAll;
    match a
    case Check(_, _) =>
    case CreateRun(_, _, _) =>
    case CommitStart(_) =>
    case Load(_, rows) => LoadFits(s, s.invs[i].period, rows);
  }

  lemma LateWorkAble(sha: string -> string, s: State, i: nat, a: Action)
    requires CanDo(sha, s, a) && Actor(s, a) == i && In(s, i) && Able(s, i)
    requires a.Build? || a.Complete? || a.CommitReport?
    requires In(Do(sha, s, a), i)
    ensures Able(Do(sha, s, a), i)
  {
    hide Fitting, NoneCompleted, StoreFits, Builds, ReportFits, ItemRows, CompleteRun, ApplyAll;
    match a
    case Build(_, _, _) =>
    case Complete(_, _, _) =>
    case CommitReport(_) =>
  }

  /** What driving one invocation does to another. */
  ghost predicate OtherKept(s: State, t: State, j: nat) {
    && In(s, j) && In(t, j)
    && (PreCheck(s.invs[j].phase) <==> PreCheck(t.invs[j].phase))
    && (!PreCheck(s.invs[j].phase) ==> t.invs[j] == s.invs[j])
  }

  lemma OtherDriveAble(sha: string -> string, s: State, i: nat, a: Action, j: nat)
    requires Inv(sha, s) && Drives(sha, s, i, a) && j != i && In(s, j) && Able(s, j)
    requires PreCheck(s.invs[j].phase) ==> PreCheck(s.invs[i].phase)
    ensures OtherKept(s, Do(sha, s, a), j) && Able(Do(sha, s, a), j)
  {
    hide Inv, CanDo, Do, AbleIn, UsersGrow, RunsGrow, Drives;
    DrivesCan(sha, s, i, a);
    StepInv(sha, s, a);
    var inv := s.invs[j];
    AbleInAfter(sha, s, a, inv.period, inv.version, inv.phase);
    if Actor(s, a) == j {
      AccountStepPhases(sha, s, a);
      PreCheckAlike(Do(sha, s, a), inv.period, inv.version, inv.phase, Do(sha, s, a).invs[j].phase);
    }
  }

  lemma NoIngestCons(a: Action, acts: seq<Action>)
    requires !a.Ingest? && NoIngest(acts)
    ensures NoIngest([a] + acts)
  {
  }

  lemma NoIngestConcat(a: seq<Action>, b: seq<Action>)
    requires NoIngest(a) && NoIngest(b)
    ensures NoIngest(a + b)
  {
  }

  /** Driven past its check, with every other able invocation kept able. */
  lemma {:induction false} PassesCheck(sha: string -> string, s: State, i: nat)
    returns (acts: seq<Action>, t: State)
    requires Inv(sha, s) && In(s, i) && Able(s, i)
    ensures Runs(sha, s, acts, t) && NoIngest(acts) && Inv(sha, t)
    ensures In(t, i) && Able(t, i) && !PreCheck(t.invs[i].phase)
    ensures forall j: nat :: j != i && In(s, j) && Able(s, j) ==> OtherKept(s, t, j) && Able(t, j)
    decreases Remaining(s, i)
  {
    hide Inv, Able, Drives, CanDo, Do, Runs, OtherKept;
    if PreCheck(s.invs[i].phase) {
      var a := Drive(sha, s, i);
      DrivesCan(sha, s, i, a);
      StepInv(sha, s, a);
      var m := Do(sha, s, a);
      DriveAble(sha, s, i, a);
      var rest, last := PassesCheck(sha, m, i);
      forall j: nat | j != i && In(s, j) && Able(s, j)
        ensures OtherKept(s, last, j) && In(last, j) && Able(last, j)
      {
        OtherDriveAble(sha, s, i, a, j);
        OtherKeptOn(s, m, last, j);
        KeptPast(s, last, j);
      }
      acts, t := [a] + rest, last;
      RunsCons(sha, s, a, rest, t);
      NoIngestCons(a, rest);
    } else {
      acts, t := [], s;
      NoSteps(sha, s);
      forall j: nat | j != i && In(s, j) && Able(s, j)
        ensures OtherKept(s, t, j)
      {
        OtherKeptSame(s, j);
      }
    }
  }

  lemma OtherKeptSame(s: State, j: nat)
    requires In(s, j)
    ensures OtherKept(s, s, j)
  {
  }

  lemma OtherKeptOn(s: State, m: State, t: State, j: nat)
    requires OtherKept(s, m, j) && (In(m, j) ==> OtherKept(m, t, j))
    ensures OtherKept(s, t, j) && In(m, j)
  {
  }

  /** Driving keeps an invocation able, whoever takes the step. */
  lemma DriveAble(sha: string -> string, s: State, i: nat, a: Action)
    requires Inv(sha, s) && Drives(sha, s, i, a) && In(s, i) && Able(s, i) && !s.invs[i].phase.Done?
    ensures In(Do(sha, s, a), i) && Able(Do(sha, s, a), i)
    ensures !PreCheck(s.invs[i].phase) ==> !PreCheck(Do(sha, s, a).invs[i].phase)
  {
    hide Inv, CanDo, Do, AbleIn, UsersGrow, RunsGrow, Drives, NoneCompleted;
    DrivesCan(sha, s, i, a);
    StepInv(sha, s, a);
    var inv := s.invs[i];
    if Actor(s, a) == i {
      OwnDriveAble(sha, s, i, a);
      PastStaysPast(sha, s, i, a);
    } else {
      AbleInAfter(sha, s, a, inv.period, inv.version, inv.phase);
    }
  }

  lemma PastStaysPast(sha: string -> string, s: State, i: nat, a: Action)
    requires Drives(sha, s, i, a) && Actor(s, a) == i && In(s, i) && In(Do(sha, s, a), i)
    ensures !PreCheck(s.invs[i].phase) ==> !PreCheck(Do(sha, s, a).invs[i].phase)
  {
    hide Drives, Remaining, LatestCompleted, Builds, ReportLaws.ListForPeriod, ReportFits, ItemRows, CompleteRun, FirstRow,
         ApplyAll, AccountRead, NoAccount;
    DrivesCan(sha, s, i, a);
    ActorIsInvocation(s, i, a);
    if !PreCheck(s.invs[i].phase) {
      match a
      case CreateRun(_, _, _) =>
      case CommitStart(_) =>
      case Load(_, _) =>
      case Build(_, _, _) =>
      case Complete(_, _, _) =>
      case CommitReport(_) =>
      case _ =>
    }
  }

  /** Past its check, an able invocation completes, and nobody else past theirs is disturbed. */
  lemma {:induction false} Completes(sha: string -> string, s: State, i: nat)
    returns (acts: seq<Action>, t: State)
    requires Inv(sha, s) && In(s, i) && Able(s, i) && !PreCheck(s.invs[i].phase)
    ensures Runs(sha, s, acts, t) && NoIngest(acts) && Inv(sha, t)
    ensures In(t, i) && t.invs[i].phase.Done?
    ensures forall j: nat :: j != i && In(s, j) && Able(s, j) && !PreCheck(s.invs[j].phase)
                             ==> OtherKept(s, t, j) && Able(t, j)
    decreases Remaining(s, i)
  {
    hide Inv, Able, Drives, CanDo, Do, Runs, OtherKept;
    if s.invs[i].phase.Done? {
      acts, t := [], s;
      NoSteps(sha, s);
      forall j: nat | j != i && In(s, j)
        ensures OtherKept(s, t, j)
      {
        OtherKeptSame(s, j);
      }
    } else {
      var a := Drive(sha, s, i);
      DrivesCan(sha, s, i, a);
      StepInv(sha, s, a);
      var m := Do(sha, s, a);
      DriveAble(sha, s, i, a);
      var rest, last := Completes(sha, m, i);
      forall j: nat | j != i && In(s, j) && Able(s, j) && !PreCheck(s.invs[j].phase)
        ensures OtherKept(s, last, j) && In(last, j) && Able(last, j)
      {
        OtherDriveAble(sha, s, i, a, j);
        KeptPast(s, m, j);
        OtherKeptOn(s, m, last, j);
        KeptPast(s, last, j);
      }
      acts, t := [a] + rest, last;
      RunsCons(sha, s, a, rest, t);
      NoIngestCons(a, rest);
    }
  }

  lemma KeptPast(s: State, t: State, j: nat)
    requires OtherKept(s, t, j)
    ensures In(s, j) && In(t, j) && (PreCheck(s.invs[j].phase) <==> PreCheck(t.invs[j].phase))
    ensures !PreCheck(s.invs[j].phase) ==> t.invs[j] == s.invs[j]
  {
  }

  // ---- The exact conditions ----

  /** Over the transactions stored now, some continuation completes the invocation. */
  ghost predicate CanFinish(sha: string -> string, s: State, i: nat) {
    exists acts, t :: Runs(sha, s, acts, t) && NoIngest(acts) && In(t, i) && t.invs[i].phase.Done?
  }

  /** Some one continuation completes both. */
  ghost predicate CanBothFinish(sha: string -> string, s: State, i: nat, j: nat) {
    exists acts, t :: Runs(sha, s, acts, t) && NoIngest(acts) && In(t, i) && In(t, j)
                      && t.invs[i].phase.Done? && t.invs[j].phase.Done?
  }

  lemma DoneIsAble(s: State, i: nat)
    requires In(s, i) && s.invs[i].phase.Done?
    ensures Able(s, i)
  {
    hide StoreFits, NoneCompleted, Fitting;
  }

  lemma BothDrivenToDone(sha: string -> string, s: State, i: nat, j: nat)
    requires Inv(sha, s) && In(s, i) && In(s, j) && Able(s, i) && Able(s, j) && i != j
    ensures CanBothFinish(sha, s, i, j)
  {
    hide Inv, Able, Runs, OtherKept;
    var a, s1 := PassesCheck(sha, s, i);
    KeptPast(s, s1, j);
    var b, s2 := PassesCheck(sha, s1, j);
    KeptPast(s1, s2, i);
    var c, s3 := Completes(sha, s2, i);
    KeptPast(s2, s3, j);
    var d, s4 := Completes(sha, s3, j);
    DoneIsAble(s3, i);
    KeptPast(s3, s4, i);
    RunsConcat(sha, s2, c, s3, d, s4);
    RunsConcat(sha, s1, b, s2, c + d, s4);
    RunsConcat(sha, s, a, s1, b + (c + d), s4);
    NoIngestConcat(c, d);
    NoIngestConcat(b, c + d);
    NoIngestConcat(a, b + (c + d));
  }

  /** An invocation can complete exactly if it is able to, whatever the others have done so far. */
  lemma CanFinishIff(sha: string -> string, s: State, i: nat)
    requires Reachable(sha, s) && In(s, i)
    ensures CanFinish(sha, s, i) <==> Able(s, i)
  {
    hide Reachable, Inv, Able, Runs, OtherKept;
    ReachableInv(sha, s);
    if CanFinish(sha, s, i) {
      var acts, t :| Runs(sha, s, acts, t) && NoIngest(acts) && In(t, i) && t.invs[i].phase.Done?;
      DoneIsAble(t, i);
      AbleFromTheStart(sha, s, acts, t, i);
    }
    if Able(s, i) {
      var a, m := PassesCheck(sha, s, i);
      var b, t := Completes(sha, m, i);
      RunsConcat(sha, s, a, m, b, t);
      NoIngestConcat(a, b);
    }
  }

  /** Two invocations can both complete exactly if each of them can: the check excludes nothing else. */
  lemma BothFinishIff(sha: string -> string, s: State, i: nat, j: nat)
    requires Reachable(sha, s) && In(s, i) && In(s, j) && i != j
    ensures CanBothFinish(sha, s, i, j) <==> Able(s, i) && Able(s, j)
  {
    hide Reachable, Inv, Able, Runs;
    ReachableInv(sha, s);
    if CanBothFinish(sha, s, i, j) {
      var acts, t :| Runs(sha, s, acts, t) && NoIngest(acts) && In(t, i) && In(t, j)
                     && t.invs[i].phase.Done? && t.invs[j].phase.Done?;
      DoneIsAble(t, i);
      DoneIsAble(t, j);
      AbleFromTheStart(sha, s, acts, t, i);
      AbleFromTheStart(sha, s, acts, t, j);
    }
    if Able(s, i) && Able(s, j) {
      BothDrivenToDone(sha, s, i, j);
    }
  }

  // ---- Duplicates ----

  lemma {:induction false} CallKept(sha: string -> string, s: State, acts: seq<Action>, t: State, i: nat)
    requires Inv(sha, s) && Runs(sha, s, acts, t) && In(s, i)
    ensures In(t, i) && SameCall(s.invs[i], t.invs[i])
    decreases |acts|
  {
    hide Inv, CanDo, Do, UsersGrow, RunsGrow;
    if acts != [] {
      StepInv(sha, s, acts[0]);
      CallKept(sha, Do(sha, s, acts[0]), acts[1..], t, i);
    }
  }

  lemma DoneFacts(sha: string -> string, s: State, i: nat)
    requires Inv(sha, s) && In(s, i) && s.invs[i].phase.Done? && s.invs[i].origin == ByEvent
    ensures var inv, run := s.invs[i], s.invs[i].phase.run;
            && ServiceReport(s, run) && run in s.owner && s.owner[run] == i
            && Answers(s.db.runs[run], inv.period, inv.version, s.db.runs[run].user)
  {
    hide Shows, CheckedBefore, NoRows, UniqueEmails, Timely;
    assert Local(sha, s, i);
    var run := s.invs[i].phase.run;
    assert run in s.db.runs && s.db.runs[run].status == Completed;
    assert RunOk(sha, s, run);
  }

  /** Two rivals that are both done have completed two runs of one key. */
  lemma DoneRivalsAreDuplicates(sha: string -> string, s: State, i: nat, j: nat)
    requires Inv(sha, s) && In(s, i) && In(s, j) && i != j && Rivals(s.invs[i], s.invs[j])
    requires s.invs[i].phase.Done? && s.invs[j].phase.Done?
    ensures var p, q := s.invs[i].phase.run, s.invs[j].phase.run;
            p != q && ServiceReport(s, p) && ServiceReport(s, q) && SameKey(s.db.runs[p], s.db.runs[q])
  {
    hide Inv;
    DoneFacts(sha, s, i);
    DoneFacts(sha, s, j);
    SameAccount(sha, s, s.db.runs[s.invs[i].phase.run].user, s.db.runs[s.invs[j].phase.run].user);
  }

  /** Some continuation leaves two completed runs of one key, made by these two. */
  ghost predicate CanDuplicate(sha: string -> string, s: State, i: nat, j: nat) {
    exists acts, t :: Runs(sha, s, acts, t) && NoIngest(acts) && DuplicatedBy(t, i, j)
  }

  ghost predicate DuplicatedBy(t: State, i: nat, j: nat) {
    && In(t, i) && In(t, j) && t.invs[i].phase.Done? && t.invs[j].phase.Done?
    && var p, q := t.invs[i].phase.run, t.invs[j].phase.run;
       p != q && ServiceReport(t, p) && ServiceReport(t, q) && SameKey(t.db.runs[p], t.db.runs[q])
  }

  /**
   The idempotency check is not a lock. Two scheduled invocations of one period and version can
   both complete exactly if each is able to: if neither has checked, while nothing is completed;
   otherwise from wherever they stand, as long as the rows fit.
   */
  lemma RivalsCanDuplicateIff(sha: string -> string, s: State, i: nat, j: nat)
    requires Reachable(sha, s) && In(s, i) && In(s, j) && i != j && Rivals(s.invs[i], s.invs[j])
    ensures CanDuplicate(sha, s, i, j) <==> Able(s, i) && Able(s, j)
  {
    hide Reachable, Inv, Able, Runs, ServiceReport, SameKey;
    ReachableInv(sha, s);
    BothFinishIff(sha, s, i, j);
    if CanDuplicate(sha, s, i, j) {
      var acts, t :| Runs(sha, s, acts, t) && NoIngest(acts) && DuplicatedBy(t, i, j);
      assert CanBothFinish(sha, s, i, j);
    }
    if CanBothFinish(sha, s, i, j) {
      var acts, t :| Runs(sha, s, acts, t) && NoIngest(acts) && In(t, i) && In(t, j)
                     && t.invs[i].phase.Done? && t.invs[j].phase.Done?;
      RunsInv(sha, s, acts, t);
      CallKept(sha, s, acts, t, i);
      CallKept(sha, s, acts, t, j);
      DoneRivalsAreDuplicates(sha, t, i, j);
      assert DuplicatedBy(t, i, j);
    }
  }
}
