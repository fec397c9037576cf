/**
 The upload endpoint as it runs alone: ingest and commit in one relational transaction, then hand
 the rejections to the trail, whose failure cannot fail the upload.
 */
module UploadService {
  import opened Base
  import opened Ingestion
  import opened RejectionTrail
  import opened Uploads
  import Bson
  import Strings

  class RelationalStore {
    var tables: Tables

    constructor ()
      ensures tables == Tables(map[], map[])
    {
      tables := Tables(map[], map[]);
    }
  }

  datatype HttpError = BadRequest | UnsupportedMediaType | PayloadTooLarge | ServerError

  const ALLOWED_CONTENT_TYPES :=
    ["text/csv", "application/csv", "application/json", "application/vnd.ms-excel", "application/octet-stream"]

  /** What an upload takes from outside. */
  datatype Request = Request(
    filename: string, contentType: string, checksum: string, size: nat,
    parsed: Result<seq<Bson.Value>, ReadError>, id: BatchId, commitRaises: bool, at: int, answer: Answer)

  function AfterDot(name: string): string {
    if name == "" || name[|name| - 1] == '.' then "" else AfterDot(name[..|name| - 1]) + [name[|name| - 1]]
  }

  function ContextOf(q: Request): Context {
    Context(q.id, SafeName(q.filename), Strings.Lower(AfterDot(SafeName(q.filename))), q.checksum)
  }

  /** A name the batch row can hold: 255 characters, none of them NUL. */
  predicate NameFits(name: string) {
    |name| <= 255 && Strings.Free(name, '\0')
  }

  /** The answer of everything up to and including the relational commit; `None` is success. */
  function Refusal(validate: Validator, q: Request): Option<HttpError> {
    if q.filename == "" then Some(BadRequest)
    else if q.contentType != "" && q.contentType !in ALLOWED_CONTENT_TYPES then Some(UnsupportedMediaType)
    else
      match EarlyError(q.size, q.parsed)
      case Some(TooManyBytes) => Some(PayloadTooLarge)
      case Some(TooManyRows) => Some(PayloadTooLarge)
      case Some(ReaderFailed) => Some(ServerError)
      case Some(_) => Some(BadRequest)
      case None =>
        var stored := NameFits(SafeName(q.filename)) && AllStored(Split(validate, q.parsed.value).accepted);
        if !stored || q.commitRaises then Some(ServerError) else None
  }

  /** Whether a checked upload passes: what the database then refuses is a server error. */
  ghost predicate Passes(validate: Validator, q: Request) {
    && q.parsed.Ok? && |SafeName(q.filename)| <= 255 && '\0' !in SafeName(q.filename)
    && (forall i :: 0 <= i < |Split(validate, q.parsed.value).accepted| ==>
         Store(Split(validate, q.parsed.value).accepted[i]).Some?)
    && !q.commitRaises
  }

  /** The answers by cause, the first that applies deciding; limits are 25 MiB and 200000 rows. */
  lemma UploadAnswers(validate: Validator, q: Request)
    ensures q.filename == "" ==> Refusal(validate, q) == Some(BadRequest)
    ensures q.filename != "" ==>
      var typed := q.contentType in
        ["", "text/csv", "application/csv", "application/json", "application/vnd.ms-excel", "application/octet-stream"];
      var tooLarge := q.size > 25 * 1024 * 1024;
      && (!typed ==> Refusal(validate, q) == Some(UnsupportedMediaType))
      && (typed && q.size == 0 ==> Refusal(validate, q) == Some(BadRequest))
      && (typed && tooLarge ==> Refusal(validate, q) == Some(PayloadTooLarge))
      && (typed && q.size > 0 && !tooLarge ==>
           match q.parsed
           case Err(BadFile) => Refusal(validate, q) == Some(BadRequest)
           case Err(Broken) => Refusal(validate, q) == Some(ServerError)
           case Ok(rows) =>
             if |rows| > 200_000 then Refusal(validate, q) == Some(PayloadTooLarge)
             else Refusal(validate, q) == if Passes(validate, q) then None else Some(ServerError))
  {
    hide Split, SafeName, Store;
    NulIsMember(SafeName(q.filename));
  }

  /** The format is what follows the last point of the name, or the whole name, in lower case. */
  lemma {:induction false} AfterDotReads(front: string, last: string)
    requires Strings.Free(last, '.') && (front == "" || front[|front| - 1] == '.')
    ensures AfterDot(front + last) == last
  {
    var name := front + last;
    if last == "" {
      assert name == front;
    } else {
      var n := |last| - 1;
      assert name[..|name| - 1] == front + last[..n] && name[|name| - 1] == last[n];
      AfterDotReads(front, last[..n]);
    }
  }

  /**
   `upload_batch`: a refused upload changes neither store; an accepted one commits its batch and
   records whole, and adds to the trail only documents of its own rejected rows.
   */
  method UploadBatch(validate: Validator, db: RelationalStore, trail: MongoRejectionStore?, q: Request)
    returns (r: Result<BatchRow, HttpError>)
    requires q.id !in db.tables.batches && q.id !in db.tables.records
    requires !q.answer.fails && q.parsed.Ok? ==>
               forall k: nat :: k < |Split(validate, q.parsed.value).details| ==> k in q.answer.kept
    modifies db, trail
    ensures Refusal(validate, q).Some? ==>
              && r == Err(Refusal(validate, q).value) && db.tables == old(db.tables)
              && (trail != null ==> trail.docs == old(trail.docs))
    ensures Refusal(validate, q).None? ==>
              var rows := q.parsed.value;
              var s := Split(validate, rows);
              && r == Ok(FinalRow(|rows|, s))
              && db.tables.batches == old(db.tables).batches[q.id := FinalRow(|rows|, s)]
              && db.tables.records == old(db.tables).records[q.id := StoreAll(s.accepted)]
              && (trail != null ==>
                   trail.docs == old(trail.docs) + Chosen(Documents(ContextOf(q), s.details, q.at), q.answer.kept))
  {
    if q.filename == "" {
      return Err(BadRequest);
    }
    if q.contentType != "" && q.contentType !in ALLOWED_CONTENT_TYPES {
      return Err(UnsupportedMediaType);
    }
    var ingested := IngestBatch(validate, q.filename, q.checksum, q.size, q.parsed);
    if ingested.Err? {
      match ingested.error {
        case TooManyBytes => return Err(PayloadTooLarge);
        case TooManyRows => return Err(PayloadTooLarge);
        case ReaderFailed => return Err(ServerError);
        case _ => return Err(BadRequest);
      }
    }
    var result := ingested.value;
    if !NameFits(result.batch.filename) || !AllStored(result.accepted) || q.commitRaises {
      return Err(ServerError);
    }
    var batch := result.batch;
    var row := BatchRow(batch.status, batch.rowCount, batch.acceptedCount, batch.rejectedCount, batch.rejectedRows);
    db.tables := Tables(db.tables.batches[q.id := row], db.tables.records[q.id := StoreAll(result.accepted)]);
    var context := Context(q.id, batch.filename, Strings.Lower(AfterDot(batch.filename)), batch.checksum);
    var stored := RecordBestEffort(trail, context, result.details, q.at, q.answer);
    return Ok(row);
  }
}
