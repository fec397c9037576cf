/**
 Batch ingestion: one pass splits the parsed rows into accepted records and rejected ones, then
 the batch is finalised. Which rows validate is a parameter.
 */
module Ingestion {
  import opened Base
  import opened Strings
  import Bson
  import Calendar
  import Decimals
  import Transactions

  const MAX_BYTES: int := 26214400 // 25 MiB
  const MAX_ROWS: int := 200000

  /** What a valid row says; the amount is exact and the timestamp may be naive. */
  datatype Row = Row(
    externalId: string, timestamp: Calendar.Reading, amount: Decimals.Decimal, currency: string,
    counterparty: string, hint: Option<string>)

  datatype FieldError = FieldError(loc: string, kind: string, msg: string)

  /** The row schema's answer for one record. */
  datatype Verdict = Valid(row: Row) | Invalid(errors: seq<FieldError>, reason: string)

  const NOT_A_RECORD := "row is not a JSON object / CSV record"

  /** The check of one raw row: anything but a mapping is a plain value error. */
  function Judge(validate: Bson.Value -> Verdict, raw: Bson.Value): Verdict {
    if raw.Dict? then validate(raw)
    else Invalid([FieldError("", "value_error", NOT_A_RECORD)], NOT_A_RECORD)
  }

  datatype Rejected = Rejected(index: nat, reason: string)

  /** What the forensic trail gets to know of a rejected row. */
  datatype Detail = Detail(index: nat, reason: string, payload: Bson.Value, errors: seq<FieldError>)

  /** A naive timestamp is taken as UTC. */
  function WithZone(r: Calendar.Reading): Calendar.Reading {
    if r.offset.Some? then r else r.(offset := Some(0))
  }

  function RecordOf(row: Row): Row {
    row.(timestamp := WithZone(row.timestamp))
  }

  datatype Splitting = Splitting(accepted: seq<Row>, rejected: seq<Rejected>, details: seq<Detail>)

  function Split(validate: Bson.Value -> Verdict, rows: seq<Bson.Value>): Splitting {
    if rows == [] then Splitting([], [], [])
    else
      var n := |rows| - 1;
      var s := Split(validate, rows[..n]);
      match Judge(validate, rows[n])
      case Valid(row) => s.(accepted := s.accepted + [RecordOf(row)])
      case Invalid(errors, reason) =>
        s.(rejected := s.rejected + [Rejected(n, reason)],
           details := s.details + [Detail(n, reason, rows[n], errors)])
  }

  // ---- The batch row ----

  datatype BatchStatus = Processing | Completed | Failed

  class Batch {
    const filename: string
    const checksum: string
    var status: BatchStatus
    var rowCount: nat
    var acceptedCount: nat
    var rejectedCount: nat
    var rejectedRows: seq<Rejected>

    constructor (name: string, sum: string)
      ensures filename == name && checksum == sum && status == Processing
      ensures rowCount == acceptedCount == rejectedCount == 0 && rejectedRows == []
    {
      filename, checksum, status := name, sum, Processing;
      rowCount, acceptedCount, rejectedCount, rejectedRows := 0, 0, 0, [];
    }

    method Finalize(rows: nat, accepted: nat, rejected: nat, summaries: seq<Rejected>)
      modifies this
      ensures rowCount == rows && acceptedCount == accepted && rejectedCount == rejected && rejectedRows == summaries
      ensures status == if accepted > 0 then Completed else Failed
    {
      rowCount := rows;
      acceptedCount := accepted;
      rejectedCount := rejected;
      rejectedRows := summaries;
      status := if accepted > 0 then Completed else Failed;
    }
  }

  predicate IsSeparator(c: char) {
    c == '/' || c == '\\'
  }

  /** The name after the last separator, of either kind; `upload` if that is empty. */
  function AfterSeparator(name: string): string {
    if name == "" then ""
    else if IsSeparator(name[|name| - 1]) then ""
    else AfterSeparator(name[..|name| - 1]) + [name[|name| - 1]]
  }

  function SafeName(name: string): string {
    if AfterSeparator(name) == "" then "upload" else AfterSeparator(name)
  }

  datatype UploadError = EmptyUpload | TooManyBytes | Unreadable | ReaderFailed | TooManyRows

  /**
   How reading a file can fail: with a value error or an unknown extension, or with something else
   the reader raises, such as an over-long CSV field.
   */
  datatype ReadError = BadFile | Broken

  datatype Ingested = Ingested(batch: Batch, accepted: seq<Row>, rejected: seq<Rejected>, details: seq<Detail>)

  /** The checks before any row is looked at, in order; `None` means none of them fails. */
  function EarlyError(size: nat, parsed: Result<seq<Bson.Value>, ReadError>): Option<UploadError> {
    if size == 0 then Some(EmptyUpload)
    else if size > MAX_BYTES then Some(TooManyBytes)
    else if parsed.Err? then Some(if parsed.error.BadFile? then Unreadable else ReaderFailed)
    else if |parsed.value| > MAX_ROWS then Some(TooManyRows)
    else None
  }

  /** `ingest_batch`; `parsed` is what reading the file by its extension gives. */
  method IngestBatch(
    validate: Bson.Value -> Verdict, filename: string, checksum: string, size: nat,
    parsed: Result<seq<Bson.Value>, ReadError>)
    returns (r: Result<Ingested, UploadError>)
    ensures EarlyError(size, parsed).Some? ==> r == Err(EarlyError(size, parsed).value)
    ensures EarlyError(size, parsed).None? ==>
              && r.Ok? && fresh(r.value.batch)
              && Splitting(r.value.accepted, r.value.rejected, r.value.details) == Split(validate, parsed.value)
              && r.value.batch.filename == SafeName(filename) && r.value.batch.checksum == checksum
              && r.value.batch.rowCount == |parsed.value|
              && r.value.batch.acceptedCount == |r.value.accepted| && r.value.batch.rejectedCount == |r.value.rejected|
              && r.value.batch.rejectedRows == r.value.rejected
              && r.value.batch.status == (if |r.value.accepted| > 0 then Completed else Failed)
  {
    if size == 0 {
      return Err(EmptyUpload);
    }
    if size > MAX_BYTES {
      return Err(TooManyBytes);
    }
    var name := SafeName(filename);
    if parsed.Err? {
      return Err(if parsed.error.BadFile? then Unreadable else ReaderFailed);
    }
    var rows := parsed.value;
    if |rows| > MAX_ROWS {
      return Err(TooManyRows);
    }
    var batch := new Batch(name, checksum);
    var accepted, rejected, details := SplitRows(validate, rows);
    batch.Finalize(|rows|, |accepted|, |rejected|, rejected);
    return Ok(Ingested(batch, accepted, rejected, details));
  }

  /** The loop over the rows. */
  method SplitRows(validate: Bson.Value -> Verdict, rows: seq<Bson.Value>)
    returns (accepted: seq<Row>, rejected: seq<Rejected>, details: seq<Detail>)
    ensures Splitting(accepted, rejected, details) == Split(validate, rows)
  {
    accepted, rejected, details := [], [], [];
    for index := 0 to |rows|
      invariant Splitting(accepted, rejected, details) == Split(validate, rows[..index])
    {
      assert rows[..index + 1][..index] == rows[..index];
      match Judge(validate, rows[index]) {
        case Invalid(errors, reason) =>
          rejected := rejected + [Rejected(index, reason)];
          details := details + [Detail(index, reason, rows[index], errors)];
        case Valid(row) =>
          accepted := accepted + [row.(timestamp := WithZone(row.timestamp))];
      }
    }
    assert rows[..|rows|] == rows;
  }

  // ---- What the split promises ----

  ghost predicate Increasing(xs: seq<nat>) {
    forall i, j :: 0 <= i < j < |xs| ==> xs[i] < xs[j]
  }

  function IndexOf(): Rejected -> nat {
    (r: Rejected) => r.index
  }

  /** The row is a mapping and the schema accepts it. */
  predicate Accepts(validate: Bson.Value -> Verdict, raw: Bson.Value) {
    raw.Dict? && validate(raw).Valid?
  }

  /** The rows the schema accepts, by index, in order. */
  function ValidIndices(validate: Bson.Value -> Verdict, rows: seq<Bson.Value>): (r: seq<nat>)
    ensures forall k :: 0 <= k < |r| ==> r[k] < |rows| && Accepts(validate, rows[r[k]])
  {
    if rows == [] then []
    else
      var n := |rows| - 1;
      ValidIndices(validate, rows[..n]) + (if Accepts(validate, rows[n]) then [n] else [])
  }

  lemma {:induction false} ValidIndicesAre(validate: Bson.Value -> Verdict, rows: seq<Bson.Value>, i: nat)
    ensures Increasing(ValidIndices(validate, rows))
    ensures i in ValidIndices(validate, rows) <==> i < |rows| && rows[i].Dict? && validate(rows[i]).Valid?
  {
    if rows != [] {
      var n := |rows| - 1;
      ValidIndicesAre(validate, rows[..n], i);
      var before := ValidIndices(validate, rows[..n]);
      forall k | 0 <= k < |before|
        ensures before[k] < n
      {
        assert before[k] in before;
      }
    }
  }

  /**
   Every row goes to exactly one side; the accepted records are what the schema makes of the rows
   it accepts, and both sides follow the input order.
   */
  lemma {:induction false} SplitKeepsOrder(validate: Bson.Value -> Verdict, rows: seq<Bson.Value>)
    ensures var s, valid := Split(validate, rows), ValidIndices(validate, rows);
            && |s.accepted| == |valid| && |s.accepted| + |s.rejected| == |rows|
            && (forall k :: 0 <= k < |valid| ==> s.accepted[k] == RecordOf(validate(rows[valid[k]]).row))
            && Increasing(Map(s.rejected, IndexOf()))
  {
    if rows != [] {
      var n := |rows| - 1;
      var before := Split(validate, rows[..n]);
      SplitKeepsOrder(validate, rows[..n]);
      RejectedBounded(validate, rows[..n]);
      assert forall k :: 0 <= k < n ==> rows[..n][k] == rows[k];
      if Judge(validate, rows[n]).Invalid? {
        var r := Rejected(n, Judge(validate, rows[n]).reason);
        MapConcat(before.rejected, [r], IndexOf());
        forall k | 0 <= k < |before.rejected|
          ensures Map(before.rejected, IndexOf())[k] < n
        {
          assert before.rejected[k] in before.rejected;
        }
      }
    }
  }

  lemma {:induction false} RejectedBounded(validate: Bson.Value -> Verdict, rows: seq<Bson.Value>)
    ensures forall r :: r in Split(validate, rows).rejected ==> r.index < |rows|
  {
    if rows != [] {
      RejectedBounded(validate, rows[..|rows| - 1]);
    }
  }

  /** Why a row is rejected: it is no mapping, or the schema refuses it. */
  predicate RejectedFor(validate: Bson.Value -> Verdict, raw: Bson.Value, errors: seq<FieldError>, reason: string) {
    if raw.Dict? then validate(raw) == Invalid(errors, reason)
    else errors == [FieldError("", "value_error", NOT_A_RECORD)] && reason == NOT_A_RECORD
  }

  /**
   A row is rejected exactly if it is no mapping or the schema refuses it, with the reason that
   follows; summaries and details agree position by position, and a detail keeps the row as it
   came.
   */
  lemma {:induction false} RejectionsAreTheInvalidRows(validate: Bson.Value -> Verdict, rows: seq<Bson.Value>, i: nat)
    ensures var s := Split(validate, rows);
            && (forall reason :: Rejected(i, reason) in s.rejected <==>
                 i < |rows| && exists errors :: RejectedFor(validate, rows[i], errors, reason))
            && |s.rejected| == |s.details|
            && (forall k :: 0 <= k < |s.details| ==>
                 && s.details[k].index == s.rejected[k].index < |rows| && s.details[k].reason == s.rejected[k].reason
                 && s.details[k].payload == rows[s.details[k].index]
                 && RejectedFor(validate, s.details[k].payload, s.details[k].errors, s.details[k].reason))
  {
    if rows != [] {
      var n := |rows| - 1;
      RejectionsAreTheInvalidRows(validate, rows[..n], i);
      RejectedBounded(validate, rows[..n]);
      assert forall k :: 0 <= k < n ==> rows[..n][k] == rows[k];
      JudgeIs(validate, rows[n]);
    }
  }

  lemma JudgeIs(validate: Bson.Value -> Verdict, raw: Bson.Value)
    ensures Accepts(validate, raw) ==> Judge(validate, raw) == validate(raw)
    ensures !Accepts(validate, raw) <==> Judge(validate, raw).Invalid?
    ensures forall errors, reason :: Judge(validate, raw) == Invalid(errors, reason)
                                     <==> RejectedFor(validate, raw, errors, reason)
  {
  }

  /** What is kept is the longest end of the name without a separator. */
  lemma {:induction false} AfterSeparatorIsSuffix(name: string)
    ensures var a := AfterSeparator(name);
            && |a| <= |name| && name[|name| - |a|..] == a
            && (|a| < |name| ==> IsSeparator(name[|name| - |a| - 1]))
  {
    hide IsSeparator;
    if name != "" && !IsSeparator(name[|name| - 1]) {
      AfterSeparatorIsSuffix(name[..|name| - 1]);
      assert name == name[..|name| - 1] + [name[|name| - 1]];
    }
  }

  /** The stored name is what follows the last separator, or "upload" where nothing does. */
  lemma SafeNameReads(dir: string, base: string)
    requires dir == "" || IsSeparator(dir[|dir| - 1])
    requires Free(base, '/') && Free(base, '\\')
    ensures SafeName(dir + base) == if base == "" then "upload" else base
  {
    hide IsSeparator;
    if dir == "" {
      assert dir + base == base;
      BareNameKept(base);
    } else {
      AfterLast(dir, base);
    }
  }

  lemma {:induction false} AfterLast(front: string, base: string)
    requires front != "" && IsSeparator(front[|front| - 1]) && Free(base, '/') && Free(base, '\\')
    ensures AfterSeparator(front + base) == base
  {
    var name := front + base;
    if base == "" {
      assert name == front;
    } else {
      var n := |base| - 1;
      assert name[..|name| - 1] == front + base[..n] && name[|name| - 1] == base[n];
      AfterLast(front, base[..n]);
    }
  }

  /** The stored name has no separator left, and is never empty. */
  lemma {:induction false} SafeNameIsBare(name: string)
    ensures SafeName(name) != "" && Free(SafeName(name), '/') && Free(SafeName(name), '\\')
    ensures SafeName(SafeName(name)) == SafeName(name)
  {
    AfterSeparatorIsBare(name);
    AfterSeparatorIsBare("upload");
    BareNameKept(SafeName(name));
  }

  lemma {:induction false} AfterSeparatorIsBare(name: string)
    ensures Free(AfterSeparator(name), '/') && Free(AfterSeparator(name), '\\')
  {
    if name != "" {
      AfterSeparatorIsBare(name[..|name| - 1]);
    }
  }

  lemma {:induction false} BareNameKept(name: string)
    requires Free(name, '/') && Free(name, '\\')
    ensures AfterSeparator(name) == name
  {
    if name != "" {
      BareNameKept(name[..|name| - 1]);
      assert name == name[..|name| - 1] + [name[|name| - 1]];
    }
  }

  // ---- What the transactions table makes of a record ----

  /** The stored amount, in cents: `Numeric(18, 2)` rounds half away from zero. */
  function StoredCents(amount: Decimals.Decimal): int {
    Decimals.RoundHalfAway(Decimals.Num(amount) * 100, Decimals.Den(amount))
  }

  /** PostgreSQL text holds any character but NUL. */
  predicate NoNul(record: Row) {
    && Free(record.externalId, '\0') && Free(record.currency, '\0') && Free(record.counterparty, '\0')
    && (record.hint.Some? ==> Free(record.hint.value, '\0'))
  }

  /** The row the table holds; `None` is a record it refuses. */
  function Store(record: Row): Option<Transactions.Transaction> {
    match Calendar.ToUtc(record.timestamp)
    case Some(utc) =>
      if Decimals.InColumn(StoredCents(record.amount)) && NoNul(record)
      then Some(Transactions.Transaction(
                  record.externalId, utc, StoredCents(record.amount), record.currency, record.counterparty, record.hint))
      else None
    case None => None
  }

  /**
   Stored rows are what reports assume of them: the texts and the hint of the row, the amount
   rounded to the nearest cent, the instant the row named.
   */
  lemma StoredIsStorable(row: Row)
    requires row.timestamp.Valid() && Store(RecordOf(row)).Some?
    ensures var t := Store(RecordOf(row)).value;
            && Transactions.Storable(t)
            && t.externalId == row.externalId && t.currency == row.currency && t.counterparty == row.counterparty
            && t.hint == row.hint
            && Decimals.NearestAway(Decimals.Num(row.amount) * 100, Decimals.Den(row.amount), t.cents)
            && Calendar.Instant(t.timestamp) == Calendar.Instant(row.timestamp.local)
                 - (if row.timestamp.offset.Some? then row.timestamp.offset.value else 0)
  {
    Calendar.ToUtcKeepsInstant(WithZone(row.timestamp));
    Decimals.RoundHalfAwayIsNearest(Decimals.Num(row.amount) * 100, Decimals.Den(row.amount));
  }

  /** The table takes a record exactly if its instant, its rounded amount and its texts fit. */
  lemma StoredIff(row: Row)
    ensures Store(RecordOf(row)).Some? <==>
              && Calendar.ToUtc(row.timestamp).Some?
              && (exists cents ::
                   && Decimals.NearestAway(Decimals.Num(row.amount) * 100, Decimals.Den(row.amount), cents)
                   && -1_000_000_000_000_000_000 < cents < 1_000_000_000_000_000_000)
              && '\0' !in row.externalId && '\0' !in row.currency && '\0' !in row.counterparty
              && (row.hint.Some? ==> '\0' !in row.hint.value)
  {
    hide Decimals.RoundHalfAway, Decimals.NearestAway;
    var n, d := Decimals.Num(row.amount) * 100, Decimals.Den(row.amount);
    forall cents
      ensures Decimals.NearestAway(n, d, cents) <==> cents == Decimals.RoundHalfAway(n, d)
    {
      Decimals.RoundHalfAwayIff(n, d, cents);
    }
    assert Decimals.NearestAway(n, d, StoredCents(row.amount));
    assert Calendar.ToUtc(WithZone(row.timestamp)) == Calendar.ToUtc(row.timestamp);
    NulIsMember(row.externalId);
    NulIsMember(row.currency);
    NulIsMember(row.counterparty);
    if row.hint.Some? { NulIsMember(row.hint.value); }
  }

  lemma NulIsMember(s: string)
    ensures Free(s, '\0') <==> '\0' !in s
  {
  }

  /** Two-decimal amounts are stored unchanged. */
  lemma CentsStoredExactly(amount: Decimals.Decimal, cents: int)
    requires Decimals.Equals(amount, cents, 100)
    ensures StoredCents(amount) == cents
  {
    var d := Decimals.Den(amount);
    Decimals.RoundHalfAwayIsNearest(Decimals.Num(amount) * 100, d);
    Decimals.NearestKeepsOrder(Decimals.Num(amount) * 100, d, StoredCents(amount), cents);
  }
}
