/**
 Concurrent uploads over both stores, as a state machine: ingest in one relational transaction,
 commit, then insert trail documents one by one. Uploads may fail or crash anywhere, and MongoDB
 expires documents whenever it likes.
 */
module Uploads {
  import opened Base
  import opened Ingestion
  import opened RejectionTrail
  import Bson
  import Transactions

  /** A batch row as committed. */
  datatype BatchRow = BatchRow(
    status: BatchStatus, rowCount: nat, acceptedCount: nat, rejectedCount: nat, rejectedRows: seq<Rejected>)

  datatype Tables = Tables(batches: map<BatchId, BatchRow>, records: map<BatchId, seq<Transactions.Transaction>>)

  datatype TableWrite =
    | PutBatch(id: BatchId, row: BatchRow)
    | AddRecords(batch: BatchId, records: seq<Transactions.Transaction>)

  function Apply(t: Tables, w: TableWrite): Tables {
    match w
    case PutBatch(id, row) => t.(batches := t.batches[id := row])
    case AddRecords(id, rs) => t.(records := t.records[id := (if id in t.records then t.records[id] else []) + rs])
  }

  function ApplyAll(t: Tables, ws: seq<TableWrite>): Tables
    decreases |ws|
  {
    if ws == [] then t else ApplyAll(Apply(t, ws[0]), ws[1..])
  }

  datatype Phase = Received | Created(batch: BatchId) | Finalized(batch: BatchId) | Recording(batch: BatchId) | Over

  /** One upload; `inserted` holds the positions of its details that were sent to MongoDB. */
  datatype Upload = Upload(rows: seq<Bson.Value>, phase: Phase, pending: seq<TableWrite>, inserted: set<nat>)

  datatype State = State(tables: Tables, trail: seq<Doc>, uploads: seq<Upload>, owner: map<BatchId, nat>)

  type Validator = Bson.Value -> Verdict

  datatype Action =
    | Receive(rows: seq<Bson.Value>)
    | CreateBatch(who: nat, id: BatchId)
    | Finalize(who: nat)
    | CommitUpload(who: nat)
    | InsertDoc(who: nat, position: nat, context: Context, at: int)
    | Stop(who: nat)
    | Expire(position: nat)

  const NEW_BATCH := BatchRow(Processing, 0, 0, 0, [])

  function FinalRow(rows: nat, s: Splitting): BatchRow {
    BatchRow(if |s.accepted| > 0 then Completed else Failed, rows, |s.accepted|, |s.rejected|, s.rejected)
  }

  predicate AllStored(records: seq<Row>) {
    forall i :: 0 <= i < |records| ==> Store(records[i]).Some?
  }

  function StoreAll(records: seq<Row>): (r: seq<Transactions.Transaction>)
    requires AllStored(records)
    ensures |r| == |records|
    ensures forall i :: 0 <= i < |records| ==> r[i] == Store(records[i]).value
  {
    seq(|records|, i requires 0 <= i < |records| => Store(records[i]).value)
  }

  predicate CanDo(validate: Validator, s: State, a: Action) {
    match a
    case Receive(_) => true
    case CreateBatch(who, id) => who < |s.uploads| && s.uploads[who].phase.Received? && id !in s.owner
    case Finalize(who) =>
      who < |s.uploads| && s.uploads[who].phase.Created? && AllStored(Split(validate, s.uploads[who].rows).accepted)
    case CommitUpload(who) => who < |s.uploads| && s.uploads[who].phase.Finalized?
    case InsertDoc(who, position, context, _) =>
      && who < |s.uploads| && s.uploads[who].phase.Recording? && context.batch == s.uploads[who].phase.batch
      && position < |Split(validate, s.uploads[who].rows).details| && position !in s.uploads[who].inserted
    case Stop(who) => who < |s.uploads| && !s.uploads[who].phase.Over?
    case Expire(position) => position < |s.trail|
  }

  function Move(s: State, who: nat, u: Upload): State
    requires who < |s.uploads|
  {
    s.(uploads := s.uploads[who := u])
  }

  function FinalWrites(validate: Validator, id: BatchId, rows: seq<Bson.Value>): seq<TableWrite>
    requires AllStored(Split(validate, rows).accepted)
  {
    var split := Split(validate, rows);
    [PutBatch(id, NEW_BATCH), AddRecords(id, StoreAll(split.accepted)), PutBatch(id, FinalRow(|rows|, split))]
  }

  function Do(validate: Validator, s: State, a: Action): State
    requires CanDo(validate, s, a)
  {
    match a
    case Receive(rows) => s.(uploads := s.uploads + [Upload(rows, Received, [], {})])
    case CreateBatch(who, id) =>
      Move(s, who, s.uploads[who].(phase := Created(id), pending := [PutBatch(id, NEW_BATCH)]))
        .(owner := s.owner[id := who])
    case Finalize(who) =>
      var u := s.uploads[who];
      Move(s, who, u.(phase := Finalized(u.phase.batch), pending := FinalWrites(validate, u.phase.batch, u.rows)))
    case CommitUpload(who) =>
      var u := s.uploads[who];
      Move(s, who, u.(phase := Recording(u.phase.batch), pending := [])).(tables := ApplyAll(s.tables, u.pending))
    case InsertDoc(who, position, context, at) =>
      var u := s.uploads[who];
      var detail := Split(validate, u.rows).details[position];
      Move(s, who, u.(inserted := u.inserted + {position})).(trail := s.trail + [DocOf(context, detail, at)])
    case Stop(who) => Move(s, who, s.uploads[who].(phase := Over, pending := []))
    case Expire(position) => s.(trail := s.trail[..position] + s.trail[position + 1..])
  }

  ghost predicate Runs(validate: Validator, s: State, acts: seq<Action>, t: State)
    decreases |acts|
  {
    if acts == [] then t == s
    else CanDo(validate, s, acts[0]) && Runs(validate, Do(validate, s, acts[0]), acts[1..], t)
  }

  const EMPTY := State(Tables(map[], map[]), [], [], map[])

  ghost predicate Reachable(validate: Validator, s: State) {
    exists acts :: Runs(validate, EMPTY, acts, s)
  }

  // ---- The invariant ----

  /** A committed batch is the finished split of its upload's rows. */
  predicate BatchOk(validate: Validator, s: State, id: BatchId)
    requires id in s.tables.batches
  {
    && id in s.owner && s.owner[id] < |s.uploads|
    && var rows := s.uploads[s.owner[id]].rows;
       && AllStored(Split(validate, rows).accepted)
       && s.tables.batches[id] == FinalRow(|rows|, Split(validate, rows))
       && id in s.tables.records && s.tables.records[id] == StoreAll(Split(validate, rows).accepted)
  }

  /** The document was made from this detail. */
  predicate MadeFrom(validate: Validator, u: Upload, k: nat, d: Doc) {
    var details := Split(validate, u.rows).details;
    k in u.inserted && k < |details| && d == DocOf(d.context, details[k], d.at)
  }

  ghost predicate DocOk(validate: Validator, s: State, d: Doc) {
    && d.context.batch in s.tables.batches && d.context.batch in s.owner && s.owner[d.context.batch] < |s.uploads|
    && exists k: nat :: MadeFrom(validate, s.uploads[s.owner[d.context.batch]], k, d)
  }

  predicate SameRow(a: Doc, b: Doc) {
    a.context.batch == b.context.batch && a.index == b.index
  }

  ghost predicate NoRepeats(trail: seq<Doc>) {
    forall i, j :: 0 <= i < j < |trail| ==> !SameRow(trail[i], trail[j])
  }

  predicate UploadOk(validate: Validator, s: State, i: nat)
    requires i < |s.uploads|
  {
    var u := s.uploads[i];
    match u.phase
    case Created(id) => id in s.owner && s.owner[id] == i && id !in s.tables.batches && id !in s.tables.records
    case Finalized(id) =>
      && id in s.owner && s.owner[id] == i && id !in s.tables.batches && id !in s.tables.records
      && AllStored(Split(validate, u.rows).accepted) && u.pending == FinalWrites(validate, id, u.rows)
    case Recording(id) => id in s.tables.batches && id in s.owner && s.owner[id] == i
    case _ => true
  }

  ghost predicate Inv(validate: Validator, s: State) {
    && (forall id :: id in s.owner ==> s.owner[id] < |s.uploads|)
    && s.tables.records.Keys == s.tables.batches.Keys <= s.owner.Keys
    && (forall id :: id in s.tables.batches ==> BatchOk(validate, s, id))
    && (forall i :: 0 <= i < |s.trail| ==> DocOk(validate, s, s.trail[i]))
    && NoRepeats(s.trail)
    && (forall i :: 0 <= i < |s.uploads| ==> UploadOk(validate, s, i))
  }

  /** What every step leaves others with. */
  ghost predicate Evolves(s: State, t: State, who: int) {
    && |s.uploads| <= |t.uploads|
    && (forall j :: 0 <= j < |s.uploads| && j != who ==> t.uploads[j] == s.uploads[j])
    && (0 <= who < |s.uploads| ==>
         t.uploads[who].rows == s.uploads[who].rows && s.uploads[who].inserted <= t.uploads[who].inserted)
    && (forall id :: id in s.owner ==> id in t.owner && t.owner[id] == s.owner[id])
    && (forall id :: id in t.owner && id !in s.owner ==> t.owner[id] == who)
    && (forall id :: id in s.tables.batches ==>
         id in t.tables.batches && t.tables.batches[id] == s.tables.batches[id])
    && (forall id :: id in s.tables.records ==>
         id in t.tables.records && t.tables.records[id] == s.tables.records[id])
    && (forall id :: id in t.tables.batches && id !in s.tables.batches ==> id in t.owner && t.owner[id] == who)
    && (forall id :: id in t.tables.records && id !in s.tables.records ==> id in t.owner && t.owner[id] == who)
  }

  lemma BatchKept(validate: Validator, s: State, t: State, who: int, id: BatchId)
    requires Evolves(s, t, who) && id in s.tables.batches && BatchOk(validate, s, id)
    ensures id in t.tables.batches && BatchOk(validate, t, id)
  {
    hide AllStored;
  }

  lemma DocKept(validate: Validator, s: State, t: State, who: int, d: Doc)
    requires Evolves(s, t, who) && DocOk(validate, s, d)
    ensures DocOk(validate, t, d)
  {
    var u, v := s.uploads[s.owner[d.context.batch]], t.uploads[t.owner[d.context.batch]];
    var k: nat :| MadeFrom(validate, u, k, d);
    assert MadeFrom(validate, v, k, d);
  }

  lemma UploadKept(validate: Validator, s: State, t: State, who: int, j: nat)
    requires Evolves(s, t, who) && j != who && j < |s.uploads| && UploadOk(validate, s, j)
    ensures UploadOk(validate, t, j)
  {
    hide AllStored, FinalWrites;
  }

  /** What is left to check of a step. */
  lemma StepKeeps(validate: Validator, s: State, t: State, who: int)
    requires Inv(validate, s) && Evolves(s, t, who)
    requires forall id :: id in t.owner ==> t.owner[id] < |t.uploads|
    requires t.tables.records.Keys == t.tables.batches.Keys <= t.owner.Keys
    requires forall id :: id in t.tables.batches && id !in s.tables.batches ==> BatchOk(validate, t, id)
    requires forall i :: 0 <= i < |t.trail| ==> t.trail[i] in s.trail || DocOk(validate, t, t.trail[i])
    requires NoRepeats(t.trail)
    requires 0 <= who < |t.uploads| ==> UploadOk(validate, t, who)
    requires |t.uploads| == |s.uploads| || (|t.uploads| == |s.uploads| + 1 && who == |s.uploads|)
    ensures Inv(validate, t)
  {
    hide Evolves, BatchOk, DocOk, UploadOk, NoRepeats;
    forall id | id in t.tables.batches
      ensures BatchOk(validate, t, id)
    {
      if id in s.tables.batches { BatchKept(validate, s, t, who, id); }
    }
    forall i | 0 <= i < |t.trail|
      ensures DocOk(validate, t, t.trail[i])
    {
      if t.trail[i] in s.trail { DocKept(validate, s, t, who, t.trail[i]); }
    }
    forall i: nat | i < |t.uploads|
      ensures UploadOk(validate, t, i)
    {
      if i != who { UploadKept(validate, s, t, who, i); }
    }
  }
}
