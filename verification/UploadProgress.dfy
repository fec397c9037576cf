/**
 The upload endpoint run by itself is a run of the upload machine: in any state of the others an
 accepted upload can take the steps that leave both stores as the endpoint does.
 */
module UploadProgress {
  import opened Base
  import opened Ingestion
  import opened RejectionTrail
  import opened UploadService
  import opened Uploads
  import Bson
  import UploadLaws

  lemma NoSteps(validate: Validator, s: State)
    ensures Runs(validate, s, [], s)
  {
  }

  lemma OneStep(validate: Validator, s: State, a: Action)
    requires CanDo(validate, s, a)
    ensures Runs(validate, s, [a], Do(validate, s, a))
  {
    hide CanDo, Do;
    assert [a][1..] == [];
  }

  lemma {:induction false} RunsConcat(
    validate: Validator, s: State, acts: seq<Action>, m: State, more: seq<Action>, t: State)
    requires Runs(validate, s, acts, m) && Runs(validate, m, more, t)
    ensures Runs(validate, s, acts + more, t)
    decreases |acts|
  {
    hide CanDo, Do;
    if acts == [] {
      assert acts + more == more;
    } else {
      assert (acts + more)[1..] == acts[1..] + more;
      RunsConcat(validate, Do(validate, s, acts[0]), acts[1..], m, more, t);
    }
  }

  /** Only upload `who` moved, and it is still about the same rows. */
  ghost predicate OnlyMoved(s: State, t: State, who: nat) {
    && who < |s.uploads| == |t.uploads| && t.uploads[who].rows == s.uploads[who].rows
    && forall j :: 0 <= j < |s.uploads| && j != who ==> t.uploads[j] == s.uploads[j]
  }

  /** From nothing to a committed batch. */
  lemma Commits(validate: Validator, s: State, rows: seq<Bson.Value>, id: BatchId)
    returns (acts: seq<Action>, t: State)
    requires Inv(validate, s) && id !in s.owner && AllStored(Split(validate, rows).accepted)
    ensures Runs(validate, s, acts, t)
    ensures t.uploads == s.uploads + [Upload(rows, Recording(id), [], {})]
    ensures t.trail == s.trail && t.owner == s.owner[id := |s.uploads|]
    ensures t.tables.batches == s.tables.batches[id := FinalRow(|rows|, Split(validate, rows))]
    ensures t.tables.records == s.tables.records[id := StoreAll(Split(validate, rows).accepted)]
  {
    hide Split, FinalWrites, ApplyAll, BatchOk, DocOk, UploadOk, NoRepeats, AllStored, StoreAll, FinalRow;
    var who := |s.uploads|;
    var s1 := Do(validate, s, Receive(rows));
    var s2 := Do(validate, s1, CreateBatch(who, id));
    var s3 := Do(validate, s2, Finalize(who));
    t := Do(validate, s3, CommitUpload(who));
    UploadLaws.FinalWritesCommit(validate, s.tables, id, rows);
    OneStep(validate, s, Receive(rows));
    OneStep(validate, s1, CreateBatch(who, id));
    OneStep(validate, s2, Finalize(who));
    OneStep(validate, s3, CommitUpload(who));
    RunsConcat(validate, s, [Receive(rows)], s1, [CreateBatch(who, id)], s2);
    RunsConcat(validate, s, [Receive(rows)] + [CreateBatch(who, id)], s2, [Finalize(who)], s3);
    acts := [Receive(rows)] + [CreateBatch(who, id)] + [Finalize(who)];
    RunsConcat(validate, s, acts, s3, [CommitUpload(who)], t);
    acts := acts + [CommitUpload(who)];
    assert t.uploads == s.uploads + [Upload(rows, Recording(id), [], {})];
  }

  /** The documents of the first `n` rejections that the server stores, one insert each. */
  lemma {:induction false} Inserts(validate: Validator, s: State, who: nat, q: Request, n: nat)
    returns (acts: seq<Action>, t: State)
    requires who < |s.uploads| && s.uploads[who].phase == Recording(q.id) && s.uploads[who].inserted == {}
    requires n <= |Split(validate, s.uploads[who].rows).details|
    ensures Runs(validate, s, acts, t) && OnlyMoved(s, t, who)
    ensures t.tables == s.tables && t.owner == s.owner && t.uploads[who].phase == Recording(q.id)
    ensures forall k :: k in t.uploads[who].inserted ==> k < n
    ensures var docs := Documents(ContextOf(q), Split(validate, s.uploads[who].rows).details, q.at);
            t.trail == s.trail + Chosen(docs[..n], q.answer.kept)
  {
    hide Split, ContextOf, DocOf;
    var docs := Documents(ContextOf(q), Split(validate, s.uploads[who].rows).details, q.at);
    if n == 0 {
      acts, t := [], s;
      NoSteps(validate, s);
      assert s.trail + [] == s.trail;
    } else {
      var before, m := Inserts(validate, s, who, q, n - 1);
      assert docs[..n][..n - 1] == docs[..n - 1];
      if n - 1 in q.answer.kept {
        var a := InsertDoc(who, n - 1, ContextOf(q), q.at);
        ContextBatch(q);
        t := Do(validate, m, a);
        OneStep(validate, m, a);
        RunsConcat(validate, s, before, m, [a], t);
        acts := before + [a];
        assert t.trail == m.trail + [docs[n - 1]];
      } else {
        acts, t := before, m;
      }
    }
  }

  lemma ContextBatch(q: Request)
    ensures ContextOf(q).batch == q.id
  {
  }

  /**
   An upload the endpoint accepts is a run of the machine that ends with both stores as the
   endpoint leaves them, whichever documents the server stores.
   */
  lemma UploadIsARun(validate: Validator, s: State, q: Request) returns (acts: seq<Action>, t: State)
    requires Inv(validate, s) && q.id !in s.owner && Refusal(validate, q).None?
    ensures Runs(validate, s, acts, t)
    ensures |t.uploads| == |s.uploads| + 1 && t.uploads[..|s.uploads|] == s.uploads
    ensures t.uploads[|s.uploads|].rows == q.parsed.value && t.uploads[|s.uploads|].phase == Over
    ensures var rows := q.parsed.value;
            var split := Split(validate, rows);
            && AllStored(split.accepted)
            && t.tables.batches == s.tables.batches[q.id := FinalRow(|rows|, split)]
            && t.tables.records == s.tables.records[q.id := StoreAll(split.accepted)]
            && t.trail == s.trail + Chosen(Documents(ContextOf(q), split.details, q.at), q.answer.kept)
  {
    hide Split, ContextOf, AllStored, StoreAll, FinalRow, BatchOk, DocOk, UploadOk, NoRepeats, Chosen, Documents, Runs;
    AcceptedIsStored(validate, q);
    var rows, who := q.parsed.value, |s.uploads|;
    var a, m := Commits(validate, s, rows, q.id);
    var n := |Split(validate, rows).details|;
    var b, r := Inserts(validate, m, who, q, n);
    WholeDocs(ContextOf(q), Split(validate, rows).details, q.at);
    t := Do(validate, r, Stop(who));
    OneStep(validate, r, Stop(who));
    RunsConcat(validate, m, b, r, [Stop(who)], t);
    RunsConcat(validate, s, a, m, b + [Stop(who)], t);
    acts := a + (b + [Stop(who)]);
    assert t.uploads[..who] == s.uploads;
  }

  lemma AcceptedIsStored(validate: Validator, q: Request)
    requires Refusal(validate, q).None?
    ensures q.parsed.Ok? && AllStored(Split(validate, q.parsed.value).accepted)
  {
    hide Split, SafeName, AllStored;
  }

  lemma WholeDocs(context: Context, details: seq<Detail>, at: int)
    ensures Documents(context, details, at)[..|details|] == Documents(context, details, at)
  {
  }

  /** An upload can stop anywhere: its open transaction is dropped and neither store changes. */
  lemma StopLosesNothing(validate: Validator, s: State, who: nat) returns (t: State)
    requires who < |s.uploads| && s.uploads[who].phase != Over
    ensures Runs(validate, s, [Stop(who)], t) && OnlyMoved(s, t, who)
    ensures t.tables == s.tables && t.trail == s.trail && t.uploads[who].phase == Over
  {
    t := Do(validate, s, Stop(who));
    OneStep(validate, s, Stop(who));
  }

  /** Any document can expire, and nothing else goes with it. */
  lemma AnyDocExpires(validate: Validator, s: State, i: nat) returns (t: State)
    requires i < |s.trail|
    ensures Runs(validate, s, [Expire(i)], t) && t == s.(trail := s.trail[..i] + s.trail[i + 1..])
  {
    t := Do(validate, s, Expire(i));
    OneStep(validate, s, Expire(i));
  }
}
