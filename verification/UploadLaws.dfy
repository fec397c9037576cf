/**
 What the two stores promise together, over every interleaving of uploads, failures, crashes,
 partial trail writes and expiry.
 */
module UploadLaws {
  import opened Base
  import opened Ingestion
  import opened RejectionTrail
  import opened Uploads
  import Bson
  import Transactions

  // ---- Every step keeps the invariant ----

  lemma ReceiveKeeps(validate: Validator, s: State, rows: seq<Bson.Value>)
    requires Inv(validate, s)
    ensures Inv(validate, Do(validate, s, Receive(rows)))
  {
    hide BatchOk, DocOk, NoRepeats;
    var t := Do(validate, s, Receive(rows));
    assert Evolves(s, t, |s.uploads|);
    StepKeeps(validate, s, t, |s.uploads|);
  }

  lemma CreateBatchKeeps(validate: Validator, s: State, who: nat, id: BatchId)
    requires Inv(validate, s) && CanDo(validate, s, CreateBatch(who, id))
    ensures Inv(validate, Do(validate, s, CreateBatch(who, id)))
  {
    hide BatchOk, DocOk, NoRepeats;
    var t := Do(validate, s, CreateBatch(who, id));
    assert Evolves(s, t, who);
    StepKeeps(validate, s, t, who);
  }

  lemma FinalizeKeeps(validate: Validator, s: State, who: nat)
    requires Inv(validate, s) && CanDo(validate, s, Finalize(who))
    ensures Inv(validate, Do(validate, s, Finalize(who)))
  {
    hide BatchOk, DocOk, NoRepeats, FinalWrites, AllStored;
    var t := Do(validate, s, Finalize(who));
    assert UploadOk(validate, s, who);
    assert Evolves(s, t, who);
    StepKeeps(validate, s, t, who);
  }

  /** The commit makes the batch visible already finished, with its records. */
  lemma FinalWritesCommit(validate: Validator, t: Tables, id: BatchId, rows: seq<Bson.Value>)
    requires AllStored(Split(validate, rows).accepted) && id !in t.records
    ensures var after, split := ApplyAll(t, FinalWrites(validate, id, rows)), Split(validate, rows);
            && after.batches == t.batches[id := FinalRow(|rows|, split)]
            && after.records == t.records[id := StoreAll(split.accepted)]
  {
    hide Split, StoreAll, FinalRow, AllStored;
    var ws, split := FinalWrites(validate, id, rows), Split(validate, rows);
    ThreeWrites(t, ws[0], ws[1], ws[2]);
    assert ws == [ws[0], ws[1], ws[2]];
    BatchWrites(t, id, FinalRow(|rows|, split), StoreAll(split.accepted));
  }

  lemma ThreeWrites(t: Tables, u: TableWrite, v: TableWrite, w: TableWrite)
    ensures ApplyAll(t, [u, v, w]) == Apply(Apply(Apply(t, u), v), w)
  {
    hide Apply;
    assert [u, v, w][1..] == [v, w] && [v, w][1..] == [w] && [w][1..] == [];
    assert ApplyAll(t, [u, v, w]) == ApplyAll(Apply(t, u), [v, w]) == ApplyAll(Apply(Apply(t, u), v), [w]);
  }

  lemma BatchWrites(t: Tables, id: BatchId, row: BatchRow, records: seq<Transactions.Transaction>)
    requires id !in t.records
    ensures var after := Apply(Apply(Apply(t, PutBatch(id, NEW_BATCH)), AddRecords(id, records)), PutBatch(id, row));
            after.batches == t.batches[id := row] && after.records == t.records[id := records]
  {
    assert [] + records == records;
  }

  lemma CommitKeeps(validate: Validator, s: State, who: nat)
    requires Inv(validate, s) && CanDo(validate, s, CommitUpload(who))
    ensures Inv(validate, Do(validate, s, CommitUpload(who)))
  {
    hide DocOk, NoRepeats, FinalWrites, AllStored, ApplyAll, Split, FinalRow, BatchOk;
    var t, id := Do(validate, s, CommitUpload(who)), s.uploads[who].phase.batch;
    assert UploadOk(validate, s, who);
    FinalWritesCommit(validate, s.tables, id, s.uploads[who].rows);
    CommittedBatchOk(validate, t, id, who);
    assert Evolves(s, t, who);
    StepKeeps(validate, s, t, who);
  }

  lemma CommittedBatchOk(validate: Validator, t: State, id: BatchId, who: nat)
    requires id in t.tables.batches && id in t.owner && t.owner[id] == who < |t.uploads|
    requires AllStored(Split(validate, t.uploads[who].rows).accepted)
    requires t.tables.batches[id] == FinalRow(|t.uploads[who].rows|, Split(validate, t.uploads[who].rows))
    requires id in t.tables.records && t.tables.records[id] == StoreAll(Split(validate, t.uploads[who].rows).accepted)
    ensures BatchOk(validate, t, id)
  {
    hide AllStored, Split, FinalRow;
  }

  /** Distinct details are about distinct rows. */
  lemma DetailsDiffer(validate: Validator, rows: seq<Bson.Value>, k: nat, p: nat)
    requires k < |Split(validate, rows).details| && p < |Split(validate, rows).details| && k != p
    ensures Split(validate, rows).details[k].index != Split(validate, rows).details[p].index
  {
    hide Split;
    var s := Split(validate, rows);
    SplitKeepsOrder(validate, rows);
    RejectionsAreTheInvalidRows(validate, rows, 0);
    assert Map(s.rejected, IndexOf())[k] == s.rejected[k].index && Map(s.rejected, IndexOf())[p] == s.rejected[p].index;
  }

  /** A document not inserted before is about a row no document of the batch is about. */
  lemma NewDocIsNew(validate: Validator, s: State, who: nat, position: nat, context: Context, at: int, d: Doc)
    requires Inv(validate, s) && CanDo(validate, s, InsertDoc(who, position, context, at)) && d in s.trail
    ensures !SameRow(d, DocOf(context, Split(validate, s.uploads[who].rows).details[position], at))
  {
    hide BatchOk, NoRepeats, Split;
    var i :| 0 <= i < |s.trail| && s.trail[i] == d;
    assert DocOk(validate, s, d) && UploadOk(validate, s, who);
    if d.context.batch == context.batch {
      var k: nat :| MadeFrom(validate, s.uploads[who], k, d);
      DetailsDiffer(validate, s.uploads[who].rows, k, position);
    }
  }

  lemma AppendNoRepeats(trail: seq<Doc>, d: Doc)
    requires NoRepeats(trail) && forall e :: e in trail ==> !SameRow(e, d)
    ensures NoRepeats(trail + [d])
  {
  }

  lemma InsertDocKeeps(validate: Validator, s: State, who: nat, position: nat, context: Context, at: int)
    requires Inv(validate, s) && CanDo(validate, s, InsertDoc(who, position, context, at))
    ensures Inv(validate, Do(validate, s, InsertDoc(who, position, context, at)))
  {
    hide BatchOk, NoRepeats, Split, SameRow;
    var t := Do(validate, s, InsertDoc(who, position, context, at));
    var d := DocOf(context, Split(validate, s.uploads[who].rows).details[position], at);
    forall e | e in s.trail
      ensures !SameRow(e, d)
    {
      NewDocIsNew(validate, s, who, position, context, at, e);
    }
    AppendNoRepeats(s.trail, d);
    assert UploadOk(validate, s, who);
    assert Evolves(s, t, who);
    assert MadeFrom(validate, t.uploads[who], position, d);
    assert DocOk(validate, t, d);
    StepKeeps(validate, s, t, who);
  }

  lemma StopKeeps(validate: Validator, s: State, who: nat)
    requires Inv(validate, s) && CanDo(validate, s, Stop(who))
    ensures Inv(validate, Do(validate, s, Stop(who)))
  {
    hide BatchOk, DocOk, NoRepeats;
    var t := Do(validate, s, Stop(who));
    assert Evolves(s, t, who);
    StepKeeps(validate, s, t, who);
  }

  lemma ExpireKeeps(validate: Validator, s: State, position: nat)
    requires Inv(validate, s) && CanDo(validate, s, Expire(position))
    ensures Inv(validate, Do(validate, s, Expire(position)))
  {
    hide BatchOk, DocOk, UploadOk;
    var t := Do(validate, s, Expire(position));
    assert Evolves(s, t, -1);
    StepKeeps(validate, s, t, -1);
  }

  lemma StepInv(validate: Validator, s: State, a: Action)
    requires Inv(validate, s) && CanDo(validate, s, a)
    ensures Inv(validate, Do(validate, s, a))
  {
    hide Inv, Do, CanDo;
    match a
    case Receive(rows) => ReceiveKeeps(validate, s, rows);
    case CreateBatch(who, id) => CreateBatchKeeps(validate, s, who, id);
    case Finalize(who) => FinalizeKeeps(validate, s, who);
    case CommitUpload(who) => CommitKeeps(validate, s, who);
    case InsertDoc(who, position, context, at) => InsertDocKeeps(validate, s, who, position, context, at);
    case Stop(who) => StopKeeps(validate, s, who);
    case Expire(position) => ExpireKeeps(validate, s, position);
  }

  lemma {:induction false} RunsInv(validate: Validator, s: State, acts: seq<Action>, t: State)
    requires Inv(validate, s) && Runs(validate, s, acts, t)
    ensures Inv(validate, t)
    decreases |acts|
  {
    hide Inv, CanDo, Do;
    if acts != [] {
      StepInv(validate, s, acts[0]);
      RunsInv(validate, Do(validate, s, acts[0]), acts[1..], t);
    }
  }

  lemma ReachableInv(validate: Validator, s: State)
    requires Reachable(validate, s)
    ensures Inv(validate, s)
  {
    hide Runs;
    var acts :| Runs(validate, EMPTY, acts, s);
    RunsInv(validate, EMPTY, acts, s);
  }

  // ---- What is promised ----

  /**
   Every committed batch is finished: its counts are those of the stored records and rejections
   and add up to its rows, and it is completed exactly if something was accepted.
   */
  lemma CommittedBatchesAddUp(validate: Validator, s: State, id: BatchId)
    requires Reachable(validate, s) && id in s.tables.batches
    ensures id in s.tables.records
    ensures var b := s.tables.batches[id];
            && b.rowCount == b.acceptedCount + b.rejectedCount
            && b.acceptedCount == |s.tables.records[id]| && b.rejectedCount == |b.rejectedRows|
            && b.status != Processing && (b.status == Completed <==> b.acceptedCount > 0)
  {
    hide Reachable, DocOk, NoRepeats, UploadOk, Split;
    ReachableInv(validate, s);
    assert BatchOk(validate, s, id);
    SplitKeepsOrder(validate, s.uploads[s.owner[id]].rows);
  }

  /** What reports assume of stored transactions holds of everything uploads commit. */
  lemma CommittedRecordsAreStorable(validate: Validator, s: State, id: BatchId)
    requires Reachable(validate, s) && id in s.tables.records
    requires forall raw :: validate(raw).Valid? ==> validate(raw).row.timestamp.Valid()
    ensures Transactions.AllStorable(s.tables.records[id])
  {
    hide Reachable, DocOk, NoRepeats, UploadOk, Split, Store, Judge, Transactions.Storable;
    ReachableInv(validate, s);
    assert BatchOk(validate, s, id);
    var rows := s.uploads[s.owner[id]].rows;
    var records := Split(validate, rows).accepted;
    SplitKeepsOrder(validate, rows);
    forall i | 0 <= i < |records|
      ensures Transactions.Storable(Store(records[i]).value)
    {
      StoredIsStorable(validate(rows[ValidIndices(validate, rows)[i]]).row);
    }
  }

  /**
   Every trail document belongs to a committed batch and repeats one of its rejected rows by index
   and reason, with the reason's field errors and the sanitized row, which BSON can hold.
   */
  lemma TrailMatchesBatches(validate: Validator, s: State, d: Doc)
    requires Reachable(validate, s) && d in s.trail
    ensures d.context.batch in s.tables.batches
    ensures Rejected(d.index, d.reason) in s.tables.batches[d.context.batch].rejectedRows
    ensures Bson.Safe(d.payload)
    ensures var batch := d.context.batch;
            && batch in s.owner && s.owner[batch] < |s.uploads| && d.index < |s.uploads[s.owner[batch]].rows|
            && var raw := s.uploads[s.owner[batch]].rows[d.index];
               d.payload == Bson.Sanitize(raw) && RejectedFor(validate, raw, d.errors, d.reason)
  {
    hide Reachable, NoRepeats, UploadOk, Split, Bson.Sanitize, Bson.Safe, AllStored, StoreAll;
    ReachableInv(validate, s);
    var i :| 0 <= i < |s.trail| && s.trail[i] == d;
    assert DocOk(validate, s, d);
    assert BatchOk(validate, s, d.context.batch);
    var u := s.uploads[s.owner[d.context.batch]];
    var k: nat :| MadeFrom(validate, u, k, d);
    var split := Split(validate, u.rows);
    RejectionsAreTheInvalidRows(validate, u.rows, d.index);
    assert split.rejected[k] == Rejected(d.index, d.reason);
    Bson.SanitizeIsSafe(split.details[k].payload);
  }

  /** At most one document per batch and row. */
  lemma OneDocPerRow(validate: Validator, s: State, i: nat, j: nat)
    requires Reachable(validate, s) && i < |s.trail| && j < |s.trail| && SameRow(s.trail[i], s.trail[j])
    ensures i == j
  {
    hide Reachable, BatchOk, DocOk, UploadOk;
    ReachableInv(validate, s);
    assert SameRow(s.trail[j], s.trail[i]);
  }

  // ---- Counting ----

  ghost predicate Distinct(xs: seq<nat>) {
    forall i, j :: 0 <= i < j < |xs| ==> xs[i] != xs[j]
  }

  /** Distinct members of a list are no more than the list is long. */
  lemma {:induction false} DistinctMembers(xs: seq<nat>, ys: seq<nat>)
    requires Distinct(xs) && forall x :: x in xs ==> x in ys
    ensures |xs| <= |ys|
    decreases |xs|
  {
    if xs != [] {
      assert xs[0] in ys;
      var i :| 0 <= i < |ys| && ys[i] == xs[0];
      var rest := ys[..i] + ys[i + 1..];
      forall x | x in xs[1..]
        ensures x in rest
      {
        var k :| 0 <= k < |xs| - 1 && xs[1..][k] == x;
        assert x == xs[k + 1] && x != xs[0];
        MemberElsewhere(ys, i, x);
      }
      DistinctMembers(xs[1..], rest);
    }
  }

  lemma MemberElsewhere(ys: seq<nat>, i: nat, x: nat)
    requires i < |ys| && x in ys && x != ys[i]
    ensures x in ys[..i] + ys[i + 1..]
  {
    assert ys == ys[..i] + [ys[i]] + ys[i + 1..];
  }

  function DocIndex(): Doc -> nat {
    (d: Doc) => d.index
  }

  /** The documents of one batch keep their distinct rows. */
  lemma {:induction false} BatchDocsDistinct(trail: seq<Doc>, batch: BatchId)
    requires NoRepeats(trail)
    ensures Distinct(Map(Filter(trail, OfBatch(batch)), DocIndex()))
  {
    if trail != [] {
      var d, rest := trail[0], Filter(trail[1..], OfBatch(batch));
      assert NoRepeats(trail[1..]);
      BatchDocsDistinct(trail[1..], batch);
      if d.context.batch == batch {
        forall j | 0 <= j < |rest|
          ensures rest[j].index != d.index
        {
          assert rest[j] in trail[1..];
          var k :| 0 <= k < |trail| - 1 && trail[1..][k] == rest[j];
          assert !SameRow(trail[0], trail[k + 1]);
        }
        MapConcat([d], rest, DocIndex());
      }
    }
  }

  /** The trail never shows more rejections than the batch has. */
  lemma TrailCountBounded(validate: Validator, s: State, batch: BatchId)
    requires Reachable(validate, s)
    ensures batch in s.tables.batches ==> |Filter(s.trail, OfBatch(batch))| <= s.tables.batches[batch].rejectedCount
    ensures batch !in s.tables.batches ==> |Filter(s.trail, OfBatch(batch))| == 0
  {
    hide Reachable, BatchOk, DocOk, UploadOk;
    ReachableInv(validate, s);
    var docs := Filter(s.trail, OfBatch(batch));
    if docs != [] {
      assert docs[0] in docs;
      TrailMatchesBatches(validate, s, docs[0]);
    }
    if batch in s.tables.batches {
      CommittedBatchesAddUp(validate, s, batch);
      BatchDocsDistinct(s.trail, batch);
      IndicesAreRejected(validate, s, batch);
      DistinctMembers(Map(docs, DocIndex()), Map(s.tables.batches[batch].rejectedRows, IndexOf()));
    }
  }

  lemma IndicesAreRejected(validate: Validator, s: State, batch: BatchId)
    requires Reachable(validate, s) && batch in s.tables.batches
    ensures forall x :: x in Map(Filter(s.trail, OfBatch(batch)), DocIndex())
                        ==> x in Map(s.tables.batches[batch].rejectedRows, IndexOf())
  {
    hide Reachable;
    var docs, rejected := Filter(s.trail, OfBatch(batch)), s.tables.batches[batch].rejectedRows;
    forall x | x in Map(docs, DocIndex())
      ensures x in Map(rejected, IndexOf())
    {
      var i :| 0 <= i < |docs| && docs[i].index == x;
      assert docs[i] in docs;
      TrailMatchesBatches(validate, s, docs[i]);
      var j :| 0 <= j < |rejected| && rejected[j] == Rejected(x, docs[i].reason);
      assert Map(rejected, IndexOf())[j] == x;
    }
  }
}
