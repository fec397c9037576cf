/**
 The MongoDB side of ingestion: one document per rejected row, written best-effort after the
 relational commit. An unordered insert that fails may have stored any of its documents.
 */
module RejectionTrail {
  import opened Base
  import opened Ingestion
  import Bson

  type BatchId = string

  datatype Context = Context(batch: BatchId, filename: string, format: string, checksum: string)

  datatype Doc = Doc(
    context: Context, index: nat, payload: Bson.Value, reason: string, errors: seq<FieldError>, at: int)

  function DocOf(context: Context, d: Detail, at: int): Doc {
    Doc(context, d.index, Bson.Sanitize(d.payload), d.reason, d.errors, at)
  }

  function Documents(context: Context, details: seq<Detail>, at: int): (r: seq<Doc>)
    ensures |r| == |details|
    ensures forall k :: 0 <= k < |details| ==> r[k] == DocOf(context, details[k], at)
  {
    seq(|details|, k requires 0 <= k < |details| => DocOf(context, details[k], at))
  }

  /** The documents at the chosen positions, in order. */
  function Chosen(docs: seq<Doc>, kept: set<nat>): seq<Doc> {
    if docs == [] then []
    else
      var n := |docs| - 1;
      Chosen(docs[..n], kept) + (if n in kept then [docs[n]] else [])
  }

  /** Exactly the documents at those positions are stored. */
  lemma {:induction false} ChosenMembers(docs: seq<Doc>, kept: set<nat>, d: Doc)
    ensures d in Chosen(docs, kept) <==> exists k: nat :: k < |docs| && k in kept && docs[k] == d
  {
    if docs != [] {
      var n := |docs| - 1;
      ChosenMembers(docs[..n], kept, d);
      if k: nat :| k < n && k in kept && docs[..n][k] == d { assert docs[k] == d; }
      if k: nat :| k < |docs| && k in kept && docs[k] == d {
        if k < n { assert docs[..n][k] == d; }
      }
    }
  }

  lemma {:induction false} ChooseAll(docs: seq<Doc>, kept: set<nat>)
    requires forall k: nat :: k < |docs| ==> k in kept
    ensures Chosen(docs, kept) == docs
  {
    if docs != [] {
      ChooseAll(docs[..|docs| - 1], kept);
      assert docs == docs[..|docs| - 1] + [docs[|docs| - 1]];
    }
  }

  /** How the server answers an insert: the positions it stored, and whether it then fails. */
  datatype Answer = Answer(kept: set<nat>, fails: bool)

  datatype Unavailable = Unavailable

  class MongoRejectionStore {
    var docs: seq<Doc>

    constructor ()
      ensures docs == []
    {
      docs := [];
    }

    /** Unordered insert: all documents, or an error and any of them. */
    method Record(context: Context, details: seq<Detail>, at: int, answer: Answer) returns (r: Result<nat, Unavailable>)
      requires !answer.fails ==> forall k: nat :: k < |details| ==> k in answer.kept
      modifies this
      ensures docs == old(docs) + Chosen(Documents(context, details, at), answer.kept)
      ensures r == if details == [] || !answer.fails then Ok(|details|) else Err(Unavailable)
    {
      if details == [] {
        assert docs == docs + Chosen(Documents(context, details, at), answer.kept);
        return Ok(0);
      }
      var documents := Documents(context, details, at);
      docs := docs + Chosen(documents, answer.kept);
      return if answer.fails then Err(Unavailable) else Ok(|documents|);
    }

    method CountForBatch(batch: BatchId) returns (n: nat)
      ensures n == |Filter(docs, OfBatch(batch))|
    {
      n := 0;
      for i := 0 to |docs|
        invariant n == |Filter(docs[..i], OfBatch(batch))|
      {
        assert docs[..i + 1] == docs[..i] + [docs[i]];
        FilterConcat(docs[..i], [docs[i]], OfBatch(batch));
        if docs[i].context.batch == batch {
          n := n + 1;
        }
      }
      assert docs[..|docs|] == docs;
    }
  }

  function OfBatch(batch: BatchId): Doc -> bool {
    (d: Doc) => d.context.batch == batch
  }

  /** Stores rejections and swallows any failure; no store at all records nothing. */
  method RecordBestEffort(store: MongoRejectionStore?, context: Context, details: seq<Detail>, at: int, answer: Answer)
    returns (stored: nat)
    requires !answer.fails ==> forall k: nat :: k < |details| ==> k in answer.kept
    modifies store
    ensures store != null ==> store.docs == old(store.docs) + Chosen(Documents(context, details, at), answer.kept)
    ensures stored == if store == null || answer.fails then 0 else |details|
  {
    if details == [] {
      assert store != null ==> store.docs == store.docs + Chosen(Documents(context, details, at), answer.kept);
      return 0;
    }
    if store == null {
      return 0;
    }
    var r := store.Record(context, details, at, answer);
    return if r.Ok? then r.value else 0;
  }
}
