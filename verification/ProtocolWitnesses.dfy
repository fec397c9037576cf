/**
 Concrete runs of the protocol: two completed reports of one period, and a storable period whose
 report can never be completed.
 */
module ProtocolWitnesses {
  import opened Base
  import opened CommittedReports
  import opened Protocol
  import opened ProtocolCompletion
  import opened ProtocolInvariant
  import opened ProtocolLaws
  import opened ProtocolProgress
  import opened ScheduledReport
  import opened Store
  import opened Transactions
  import Aggregation
  import AggregationLaws
  import Calendar
  import Decimals
  import ReportBuilder
  import ReportLaws
  import Rules

  const LEAP_DAY := Calendar.Date(2024, 2, 29)

  function EmptyDb(): Db {
    Db(map["account" := ServiceUser()], [], map[], map[], map[])
  }

  function Started0(db: Db): State {
    State(db, 0, [], map[], map[], map[], {"account"}, None)
  }

  function Event(period: Calendar.Period, at: nat): Invocation {
    Invocation(ByEvent, period, "v1", None, at, None, None, Begun, [])
  }

  /** A database with the service account and no transactions; two events for the same period. */
  function TwoEvents(): State {
    var p := Calendar.Period(LEAP_DAY, LEAP_DAY);
    Started0(EmptyDb()).(clock := 2, invs := [Event(p, 0), Event(p, 1)])
  }

  lemma TwoEventsReachable(sha: string -> string)
    ensures Reachable(sha, TwoEvents())
  {
    var s0 := Started0(EmptyDb());
    var p := Calendar.Period(LEAP_DAY, LEAP_DAY);
    assert Initial(s0);
    var a := Invoke(ByEvent, p, "v1", None);
    var s1 := DoInvoke(s0, ByEvent, p, "v1", None);
    var s2 := DoInvoke(s1, ByEvent, p, "v1", None);
    assert s2.invs == TwoEvents().invs;
    TwoSteps(sha, s0, a, a);
  }

  lemma NothingFits()
    ensures Fitting([])
  {
    assert Aggregation.SortedKeys([]) == [];
    assert Map([], ReportLaws.ClassifyV1()) == [];
  }

  lemma TwoEventsAble(i: nat)
    requires i < 2
    ensures In(TwoEvents(), i) && Able(TwoEvents(), i)
  {
    hide Fitting;
    NothingFits();
  }

  /** So two completed runs of one period and version are reachable. */
  lemma DuplicatesAreReachable(sha: string -> string) returns (s: State, p: RunId, q: RunId)
    ensures Reachable(sha, s) && p != q && ServiceReport(s, p) && ServiceReport(s, q)
    ensures SameKey(s.db.runs[p], s.db.runs[q])
  {
    hide Reachable, Able, Runs, NoIngest, ServiceReport, SameKey;
    var m := TwoEvents();
    TwoEventsReachable(sha);
    TwoEventsAble(0);
    TwoEventsAble(1);
    RivalsCanDuplicateIff(sha, m, 0, 1);
    var acts, t :| Runs(sha, m, acts, t) && NoIngest(acts) && DuplicatedBy(t, 0, 1);
    ReachOn(sha, m, acts, t);
    s, p, q := t, t.invs[0].phase.run, t.invs[1].phase.run;
  }

  // ---- A storable period that can never be completed ----

  const JANUARY := Calendar.Period(Calendar.Date(2024, 1, 1), Calendar.Date(2024, 1, 31))

  /** The largest storable payment. */
  function Huge(id: string): Transaction {
    Transaction(id, Calendar.Timestamp(Calendar.Date(2024, 1, 15), 0), Decimals.AMOUNT_LIMIT - 1, "USD", "c", None)
  }

  function HugeStore(): seq<Transaction> {
    [Huge("x"), Huge("y")]
  }

  lemma HugeIsStorable()
    ensures AllStorable(HugeStore())
  {
    forall t | t in HugeStore()
      ensures Storable(t)
    {
    }
  }

  lemma HugeAlike(id: string)
    ensures Aggregation.KeyOf(ReportLaws.ClassifyV1()(Huge(id))) == Aggregation.Key(CategoryText(HighValue), "USD")
  {
    assert Rules.NormalizedHint(Huge(id)) == None;
    assert Rules.CategoryV1(Huge(id)) == HighValue;
  }

  lemma HugeDoesNotFit()
    ensures !Fitting(HugeStore())
  {
    hide ReportLaws.ClassifyV1, Aggregation.SortedKeys, Aggregation.KeyOf, CategoryText;
    var cs, k := Map(HugeStore(), ReportLaws.ClassifyV1()), Aggregation.Key(CategoryText(HighValue), "USD");
    HugeAlike("x");
    HugeAlike("y");
    assert forall c :: c in cs ==> Aggregation.WithKey(k)(c);
    FilterAll(cs, Aggregation.WithKey(k));
    Aggregation.GroupEmptyIff(cs, k);
    HugeTotal();
    var i :| 0 <= i < |Aggregation.SortedKeys(cs)| && Aggregation.SortedKeys(cs)[i] == k;
    assert !Decimals.InColumn(AggregationLaws.GroupTotal(cs, Aggregation.SortedKeys(cs)[i]));
  }

  lemma HugeTotal()
    ensures Sum(Aggregation.Amounts(Map(HugeStore(), ReportLaws.ClassifyV1()))) == 2 * (Decimals.AMOUNT_LIMIT - 1)
  {
    hide Rules.CategoryV1, ReportLaws.RuleIdV1;
    var n := Decimals.AMOUNT_LIMIT - 1;
    assert Aggregation.Amounts(Map(HugeStore(), ReportLaws.ClassifyV1())) == [n, n];
    assert [n, n][1..] == [n] && [n][1..] == [];
  }

  lemma HugeInJanuary()
    ensures Filter(HugeStore(), ReportLaws.InSpan(Calendar.Window(JANUARY))) == HugeStore()
  {
    FilterAll(HugeStore(), ReportLaws.InSpan(Calendar.Window(JANUARY)));
  }

  function HugeEvent(): State {
    Started0(EmptyDb().(transactions := HugeStore())).(clock := 1, invs := [Event(JANUARY, 0)])
  }

  lemma HugeEventReachable(sha: string -> string)
    ensures Reachable(sha, HugeEvent())
  {
    var s0 := Started0(EmptyDb().(transactions := HugeStore()));
    HugeIsStorable();
    assert Initial(s0);
    var a := Invoke(ByEvent, JANUARY, "v1", None);
    var s1 := DoInvoke(s0, ByEvent, JANUARY, "v1", None);
    assert s1.invs == HugeEvent().invs;
    NoSteps(sha, s1);
    RunsCons(sha, s0, a, [], s1);
  }

  lemma HugeChecked(sha: string -> string) returns (s: State)
    ensures Reachable(sha, s) && s.db == EmptyDb().(transactions := HugeStore()) && s.owner == map[] && |s.invs| == 1
    ensures s.invs[0].phase.Cleared? && s.invs[0].user == Some("account") && s.invs[0].period == JANUARY
  {
    hide Reachable, Runs, HugeStore;
    HugeEventReachable(sha);
    var a, b := FindAccount(0, Some("account")), Check(0, None);
    var s1 := DoFindAccount(HugeEvent(), 0, Some("account"));
    s := DoCheck(s1, 0, None);
    TwoSteps(sha, HugeEvent(), a, b);
    ReachOn(sha, HugeEvent(), [a, b], s);
  }

  lemma BuiltReport(sha: string -> string, inv: Invocation, db: Db, rows: seq<Transaction>)
    returns (report: ReportBuilder.Report)
    ensures Builds(sha, inv, Source(|db.transactions|, rows, NoClock(|rows|), report))
  {
    hide ReportBuilder.BuildReport;
    AlwaysBuilds(sha, rows, inv.period, NoClock(|rows|));
    report := ReportBuilder.BuildReport(sha, rows, RuleSetOf(inv.version), inv.period, NoClock(|rows|)).value;
  }

  lemma HugeLoadDoesNotFit(s: State, rows: seq<Transaction>)
    requires s.db.transactions == HugeStore()
    requires ReportLaws.ListForPeriod(s.db.transactions, Calendar.Window(JANUARY), rows)
    ensures !Fitting(rows)
  {
    hide Fitting, HugeStore, ReportLaws.ListForPeriod, Calendar.Window, ReportLaws.InSpan;
    LoadFits(s, JANUARY, rows);
    HugeInJanuary();
    HugeDoesNotFit();
  }

  lemma HugeStarted(sha: string -> string) returns (s: State)
    ensures Reachable(sha, s) && s.db.transactions == HugeStore() && In(s, 0)
    ensures s.invs[0].phase.Started? && s.invs[0].period == JANUARY
  {
    hide Reachable, Runs, HugeStore, FirstRow;
    var m := HugeChecked(sha);
    var acts, t := Starts(sha, m, 0, "run", 0);
    ReachOn(sha, m, acts, t);
    s := t;
  }

  /**
   Two storable payments of 9999999999999999.99 in one month: the report can be built, its total
   row cannot be stored, so the run can fail but never complete.
   */
  lemma OversizedIsReachable(sha: string -> string) returns (s: State)
    ensures Reachable(sha, s) && In(s, 0) && s.invs[0].phase.Built? && s.db.transactions == HugeStore()
    ensures !CanComplete(s, 0) && !CanFinish(sha, s, 0)
  {
    hide Reachable, Runs, Fitting, ReportLaws.ListForPeriod, Calendar.Window, HugeStore, Builds, CanComplete, CanFinish,
         ItemRows;
    var m := HugeStarted(sha);
    var rows := SomeLoad(m.db.transactions, Calendar.Window(JANUARY));
    var report := BuiltReport(sha, m.invs[0], m.db, rows);
    var acts, t := BuildsUp(sha, m, 0, rows, NoClock(|rows|), report);
    ReachOn(sha, m, acts, t);
    s := t;
    HugeLoadDoesNotFit(m, rows);
    CompletesIffFitting(sha, s, 0);
    CanFinishIff(sha, s, 0);
  }
}
