/**
 The relational store and the sessions over it. A session holds pending writes on top of the
 committed tables: it reads both (READ COMMITTED, one fresh snapshot per query), a commit makes
 the pending writes visible at once, a rollback drops them.
 */
module Store {
  import opened Base
  import opened Transactions
  import Aggregation
  import AggregationLaws
  import Calendar
  import Decimals
  import ReportBuilder
  import ReportLaws
  import Sorting
  import Fingerprint
  import Strings

  type UserId = string
  type RunId = string

  const SERVICE_ACCOUNT_EMAIL := "system@compliance.local"

  /** The address is in lower case as it stands. */
  lemma ServiceEmailIsLower()
    ensures Strings.Lower(SERVICE_ACCOUNT_EMAIL) == SERVICE_ACCOUNT_EMAIL
  {
    LowerLetters(SERVICE_ACCOUNT_EMAIL);
  }

  lemma {:induction false} LowerLetters(s: string)
    requires forall c :: c in s ==> Strings.LowerChar(c) == c
    ensures Strings.Lower(s) == s
  {
    if s != "" {
      assert s[0] in s && forall c :: c in s[1..] ==> c in s;
      LowerLetters(s[1..]);
    }
  }

  datatype User = User(email: string, active: bool)

  /** The status a run row can have; the model's default, pending, is never written. */
  datatype Status = Running | Completed | Failed

  datatype Exports = Exports(
    json: Option<string>, csv: Option<string>, pdf: Option<string>,
    s3Json: Option<string>, s3Csv: Option<string>, s3Pdf: Option<string>)

  const NO_EXPORTS := Exports(None, None, None, None, None, None)

  datatype Run = Run(
    period: Calendar.Period, version: string, definitionHash: string, user: UserId, createdAt: int,
    status: Status, count: nat, inputHash: string, violations: seq<Violation>,
    finishedAt: Option<int>, error: Option<string>, exports: Exports)

  /** A line item as its table holds it: the value in ten-thousandths. */
  datatype ItemRow = ItemRow(
    key: Aggregation.Key, metric: Aggregation.Metric, value: int, count: nat, sourceIds: seq<string>)

  /** The tables. Line items and audit entries are grouped by the run they refer to. */
  datatype Db = Db(
    users: map<UserId, User>, transactions: seq<Transaction>, runs: map<RunId, Run>,
    items: map<RunId, seq<ItemRow>>, audit: map<RunId, seq<ReportBuilder.AuditEvent>>)

  function RowsOf<T>(table: map<RunId, seq<T>>, id: RunId): seq<T> {
    if id in table then table[id] else []
  }

  /** No outcome column has been set. */
  predicate Untouched(run: Run) {
    run.count == 0 && run.inputHash == "" && run.violations == [] && run.exports == NO_EXPORTS
  }

  predicate NoRows(db: Db, id: RunId) {
    RowsOf(db.items, id) == [] && RowsOf(db.audit, id) == []
  }

  // ---- Writes ----

  datatype Write =
    | PutUser(userId: UserId, user: User)
    | PutRun(runId: RunId, run: Run)
    | AddItems(itemsOf: RunId, rows: seq<ItemRow>)
    | AddAudit(auditOf: RunId, events: seq<ReportBuilder.AuditEvent>)

  function Apply(db: Db, w: Write): Db {
    match w
    case PutUser(id, u) => db.(users := db.users[id := u])
    case PutRun(id, r) => db.(runs := db.runs[id := r])
    case AddItems(id, rows) => db.(items := db.items[id := RowsOf(db.items, id) + rows])
    case AddAudit(id, events) => db.(audit := db.audit[id := RowsOf(db.audit, id) + events])
  }

  function ApplyAll(db: Db, ws: seq<Write>): Db
    decreases |ws|
  {
    if ws == [] then db else ApplyAll(Apply(db, ws[0]), ws[1..])
  }

  lemma {:induction false} ApplyAllConcat(db: Db, ws: seq<Write>, vs: seq<Write>)
    ensures ApplyAll(db, ws + vs) == ApplyAll(ApplyAll(db, ws), vs)
    decreases |ws|
  {
    if ws == [] {
      assert ws + vs == vs;
    } else {
      assert (ws + vs)[1..] == ws[1..] + vs;
      ApplyAllConcat(Apply(db, ws[0]), ws[1..], vs);
    }
  }

  // ---- Run rows ----

  function NewRun(period: Calendar.Period, version: string, definitionHash: string, user: UserId, at: int): Run {
    Run(period, version, definitionHash, user, at, Running, 0, "", [], None, None, NO_EXPORTS)
  }

  function CompleteRun(run: Run, report: ReportBuilder.Report, at: int, exports: Exports): Run {
    run.(status := Completed, count := report.inputCount, inputHash := report.inputHash,
         violations := report.violations, finishedAt := Some(at), exports := exports)
  }

  function FailRun(run: Run, message: string, at: int): Run {
    run.(status := Failed, error := Some(message), finishedAt := Some(at))
  }

  function StoreItem(): Aggregation.LineItem -> ItemRow {
    (i: Aggregation.LineItem) => ItemRow(i.key, i.metric, Decimals.Stored(i.value), i.count, i.sourceIds)
  }

  function ItemRows(report: ReportBuilder.Report): seq<ItemRow> {
    Map(report.lineItems, StoreItem())
  }

  /** Every value and count of a report fits its column; otherwise the database rejects the flush. */
  predicate ReportFits(report: ReportBuilder.Report) {
    AggregationLaws.RowsFit(report.lineItems) && report.inputCount < Decimals.COUNT_LIMIT
  }

  // ---- What the three commits of a generation do ----

  function WithRun(db: Db, id: RunId, run: Run): Db {
    db.(runs := db.runs[id := run])
  }

  /** The run's row is completed and all its rows appear, together. */
  function WithReport(db: Db, id: RunId, run: Run, report: ReportBuilder.Report): Db {
    db.(runs := db.runs[id := run],
        items := db.items[id := RowsOf(db.items, id) + ItemRows(report)],
        audit := db.audit[id := RowsOf(db.audit, id) + report.audit])
  }

  /** The writes a completed generation has pending. */
  function ReportWrites(id: RunId, run: Run, report: ReportBuilder.Report): seq<Write> {
    [AddItems(id, ItemRows(report)), AddAudit(id, report.audit), PutRun(id, run)]
  }

  lemma ReportWritesCommit(db: Db, id: RunId, run: Run, report: ReportBuilder.Report)
    ensures ApplyAll(db, ReportWrites(id, run, report)) == WithReport(db, id, run, report)
  {
    hide ItemRows;
    var ws := ReportWrites(id, run, report);
    assert ws[1..][1..] == [ws[2]] && ws[1..][1..][1..] == [];
    var a := Apply(db, ws[0]);
    var b := Apply(a, ws[1]);
    assert ApplyAll(db, ws) == ApplyAll(a, ws[1..]) == ApplyAll(b, [ws[2]]);
    OneWriteCommits(b, ws[2]);
  }

  lemma OneWriteCommits(db: Db, w: Write)
    ensures ApplyAll(db, [w]) == Apply(db, w)
  {
    assert [w][1..] == [];
  }

  // ---- Queries ----

  /** The filter of `find_completed`. */
  predicate Answers(run: Run, period: Calendar.Period, version: string, user: UserId) {
    run.period == period && run.version == version && run.user == user && run.status == Completed
  }

  /** Some latest completed run for exactly this period, version and user, if there is any. */
  ghost predicate LatestCompleted(
    db: Db, period: Calendar.Period, version: string, user: UserId, found: Option<RunId>)
  {
    match found
    case None => forall id :: id in db.runs ==> !Answers(db.runs[id], period, version, user)
    case Some(f) =>
      && f in db.runs && Answers(db.runs[f], period, version, user)
      && forall id :: id in db.runs && Answers(db.runs[id], period, version, user)
                      ==> db.runs[id].createdAt <= db.runs[f].createdAt
  }

  ghost predicate EmailFree(db: Db, email: string) {
    forall id :: id in db.users ==> db.users[id].email != email
  }

  ghost predicate UniqueEmails(db: Db) {
    forall a, b :: a in db.users && b in db.users && db.users[a].email == db.users[b].email ==> a == b
  }

  // ---- Sessions ----

  class Database {
    var state: Db

    constructor (db: Db)
      ensures state == db
    {
      state := db;
    }
  }

  class Session {
    const database: Database
    var pending: seq<Write>

    constructor (d: Database)
      ensures database == d && pending == []
    {
      database, pending := d, [];
    }

    /** What the session's queries see. */
    function View(): Db
      reads this, database
    {
      ApplyAll(database.state, pending)
    }

    method Add(w: Write)
      modifies this
      ensures pending == old(pending) + [w]
      ensures View() == Apply(old(View()), w)
    {
      ApplyAllConcat(database.state, pending, [w]);
      OneWriteCommits(View(), w);
      pending := pending + [w];
    }

    /** A commit that raises has committed nothing. */
    method Commit(raises: bool) returns (ok: bool)
      modifies this, database
      ensures ok == !raises
      ensures ok ==> database.state == old(View()) && pending == []
      ensures !ok ==> database.state == old(database.state) && pending == old(pending)
    {
      if raises {
        return false;
      }
      database.state := ApplyAll(database.state, pending);
      pending := [];
      return true;
    }

    method Rollback()
      modifies this
      ensures pending == []
    {
      pending := [];
    }
  }

  // ---- Repositories ----

  class UserRepository {
    const session: Session

    constructor (s: Session)
      ensures session == s
    {
      session := s;
    }

    /** The user with this address, whatever its case. */
    method GetByEmail(email: string) returns (found: Option<UserId>)
      ensures found.Some? ==>
        found.value in session.View().users && session.View().users[found.value].email == Strings.Lower(email)
      ensures found.None? <==> EmailFree(session.View(), Strings.Lower(email))
    {
      var users, wanted := session.View().users, Strings.Lower(email);
      var left := users.Keys;
      while left != {}
        invariant left <= users.Keys
        invariant forall id :: id in users && id !in left ==> users[id].email != wanted
        decreases left
      {
        var id :| id in left;
        if users[id].email == wanted {
          return Some(id);
        }
        left := left - {id};
      }
      return None;
    }

    /** Inserts a user under the lower-cased address; the unique index refuses one that is there. */
    method Create(id: UserId, email: string, active: bool) returns (ok: bool)
      requires id !in session.View().users
      modifies session
      ensures ok <==> EmailFree(old(session.View()), Strings.Lower(email))
      ensures ok ==> session.pending == old(session.pending) + [PutUser(id, User(Strings.Lower(email), active))]
      ensures !ok ==> session.pending == old(session.pending)
    {
      var users := session.View().users;
      if exists other :: other in users && users[other].email == Strings.Lower(email) {
        return false;
      }
      session.Add(PutUser(id, User(Strings.Lower(email), active)));
      return true;
    }
  }

  class ReportRepository {
    const session: Session

    constructor (s: Session)
      ensures session == s
    {
      session := s;
    }

    method CreatePending(
      id: RunId, period: Calendar.Period, version: string, definitionHash: string, user: UserId, at: int)
      requires id !in session.View().runs
      modifies session
      ensures session.pending == old(session.pending) + [PutRun(id, NewRun(period, version, definitionHash, user, at))]
      ensures session.View() == WithRun(old(session.View()), id, NewRun(period, version, definitionHash, user, at))
    {
      session.Add(PutRun(id, Run(period, version, definitionHash, user, at, Running, 0, "", [], None, None, NO_EXPORTS)));
    }

    method AddLineItems(id: RunId, report: ReportBuilder.Report)
      modifies session
      ensures session.pending == old(session.pending) + [AddItems(id, ItemRows(report))]
    {
      session.Add(AddItems(id, ItemRows(report)));
    }

    method AddAuditEntries(id: RunId, report: ReportBuilder.Report)
      modifies session
      ensures session.pending == old(session.pending) + [AddAudit(id, report.audit)]
    {
      session.Add(AddAudit(id, report.audit));
    }

    /** Sets the outcome columns; only rows that fit their columns can be flushed. */
    method MarkCompleted(id: RunId, report: ReportBuilder.Report, at: int, exports: Exports) returns (ok: bool)
      requires id in session.View().runs
      modifies session
      ensures ok <==> ReportFits(report)
      ensures ok ==>
        session.pending
        == old(session.pending) + [PutRun(id, CompleteRun(old(session.View()).runs[id], report, at, exports))]
      ensures !ok ==> session.pending == old(session.pending)
    {
      if !ReportFits(report) {
        return false;
      }
      var run := session.View().runs[id];
      run := run.(status := Completed);
      run := run.(count := report.inputCount);
      run := run.(inputHash := report.inputHash);
      run := run.(violations := report.violations);
      run := run.(finishedAt := Some(at));
      run := run.(exports := exports);
      session.Add(PutRun(id, run));
      return true;
    }

    method MarkFailed(id: RunId, message: string, at: int)
      requires id in session.View().runs
      modifies session
      ensures session.pending == old(session.pending) + [PutRun(id, FailRun(old(session.View()).runs[id], message, at))]
    {
      var run := session.View().runs[id];
      run := run.(status := Failed);
      run := run.(error := Some(message));
      run := run.(finishedAt := Some(at));
      session.Add(PutRun(id, run));
    }

    /** The latest matching completed run, by creation time. */
    method FindCompleted(period: Calendar.Period, version: string, user: UserId) returns (found: Option<RunId>)
      ensures LatestCompleted(session.View(), period, version, user, found)
    {
      var runs := session.View().runs;
      var left := runs.Keys;
      found := None;
      while left != {}
        invariant left <= runs.Keys
        invariant found.Some? ==> found.value in runs && Answers(runs[found.value], period, version, user)
        invariant forall id :: id in runs && id !in left && Answers(runs[id], period, version, user) ==>
            found.Some? && runs[id].createdAt <= runs[found.value].createdAt
        decreases left
      {
        var id :| id in left;
        if Answers(runs[id], period, version, user)
           && (found.None? || runs[id].createdAt > runs[found.value].createdAt) {
          found := Some(id);
        }
        left := left - {id};
      }
    }
  }

  /** `list_for_period`: filter by the inclusive UTC window, order by timestamp. */
  method ListForPeriod(session: Session, period: Calendar.Period) returns (r: seq<Transaction>)
    ensures ReportLaws.ListForPeriod(session.View().transactions, Calendar.Window(period), r)
  {
    var window := Calendar.Window(period);
    r := Sorting.StableSort(
      Filter(session.View().transactions, ReportLaws.InSpan(window)), Fingerprint.RankLe(Fingerprint.ByTime()));
    ReportLaws.LoadExists(session.View().transactions, window, r);
  }
}
