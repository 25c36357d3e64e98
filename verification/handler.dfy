/**
 * The lambda entry point: fetch the CSV text from the triggering event,
 * parse and validate it, then write its records to DynamoDB batch by batch,
 * in order, stopping at the first batch the store does not fully accept.
 * S3, csv-parse, md5 over JSON, `parseFloat` and DynamoDB are parameters.
 */
module Handler {
  import opened Wrappers
  import opened Records
  import opened Validation
  import opened S3Key
  import opened Partition
  import opened BatchWrite

  /** The body of an API Gateway request: text, an object (given as its stringified form) or missing/falsy. */
  datatype ApiBody = Text(text: string) | Structured(stringified: string) | NoBody

  /** The triggering event: an S3 upload notification or an API request. */
  datatype Event = S3Event(bucket: string, key: string) | ApiEvent(body: ApiBody)

  /** What `docClient.batchWrite(...).promise()` does: resolve with the unprocessed items per table, or throw. */
  datatype WriteOutcome = Written(unprocessedItems: map<string, seq<PutRequest>>) | Threw(error: string)

  /** The collaborators the lambda calls. */
  datatype Env = Env(
    s3GetObject: (string, string) -> Result<string, string>,  // body of (bucket, key), or the error thrown
    parse: string -> Result<seq<Record>, string>,             // csv-parse with `columns: true`
    idOf: Record -> string,                                   // md5(JSON.stringify(record))
    parseFloat: Value -> Float,
    batchWrite: (nat, BatchWriteRequest) -> WriteOutcome)     // the store's answer to the i-th call of this invocation

  /** `./config` and `./error`. */
  datatype Config = Config(tableName: string, batchWriteSize: nat, invalidDataError: int, writeDbError: int)

  datatype HandlerError =
    | InvalidData(message: string)                                         // csv-parse or checkCsvData threw
    | FetchFailed(error: string)                                           // getCsvData threw
    | Unprocessed(batch: nat, unprocessedItems: map<string, seq<PutRequest>>)
    | StoreThrew(batch: nat, error: string)

  datatype Response = Succeeded | Failed(error: HandlerError)

  /**
   * The `statusCode` of the response the lambda returns: 0 from
   * `responseSuccess`, otherwise the error code passed to `responseError`.
   */
  function StatusCode(response: Response, cfg: Config): (code: int)
    ensures response == Succeeded ==> code == 0
    ensures response.Failed? ==> code == cfg.invalidDataError || code == cfg.writeDbError
    ensures response.Failed? && response.error.InvalidData? ==> code == cfg.invalidDataError
  {
    match response
    case Succeeded => 0
    case Failed(InvalidData(_)) => cfg.invalidDataError
    case Failed(_) => cfg.writeDbError
  }

  const NoBodyMessage: string := "exception api request, no body data"

  /** `getCsvData`: the object named by an S3 event (after the file-type check), or the API request body. */
  function GetCsvData(event: Event, s3GetObject: (string, string) -> Result<string, string>): (r: Result<string, string>)
    ensures event.S3Event? && CsvType(event.key).Failure? ==> r == Failure(CsvType(event.key).error)
    ensures event.S3Event? && CsvType(event.key).Success? ==> r == s3GetObject(event.bucket, event.key)
    ensures event.ApiEvent? ==> (r.Failure? <==> event.body.NoBody?)
    ensures event.ApiEvent? && r.Failure? ==> r.error == NoBodyMessage
  {
    match event
    case S3Event(bucket, key) =>
      (match CsvType(key)
       case Failure(msg) => Failure(msg)
       case Success(_) => s3GetObject(bucket, key))
    case ApiEvent(Text(text)) => Success(text)
    case ApiEvent(Structured(json)) => Success(json)
    case ApiEvent(NoBody) => Failure(NoBodyMessage)
  }

  /** A batch write counts as done unless it threw or left items of `tableName` unprocessed. */
  predicate Completed(outcome: WriteOutcome, tableName: string)
  {
    match outcome
    case Threw(_) => false
    case Written(unprocessed) => !(tableName in unprocessed && |unprocessed[tableName]| > 0)
  }

  // ---------------------------------------------------------------------------
  // The reference behaviour of the write phase, batch by batch.

  /** The request sent for batch `i` of the validated records. */
  function Batch(recs: seq<Record>, i: nat, env: Env, cfg: Config): BatchWriteRequest
    requires cfg.batchWriteSize >= 1 && i < LoopTotal(|recs|, cfg.batchWriteSize)
  {
    var size := cfg.batchWriteSize;
    BatchBounds(i, |recs|, size);
    BatchRequest(recs[Offset(i, size)..Offset(i, size) + HandleSize(i, |recs|, size)], cfg.tableName, env.idOf, env.parseFloat)
  }

  /** The store's answer to batch `i`. */
  function Reply(recs: seq<Record>, i: nat, env: Env, cfg: Config): WriteOutcome
    requires cfg.batchWriteSize >= 1 && i < LoopTotal(|recs|, cfg.batchWriteSize)
  {
    env.batchWrite(i, Batch(recs, i, env, cfg))
  }

  /** The first batch at or after `from` that the store does not complete, or the batch count if there is none. */
  function FirstFailure(recs: seq<Record>, env: Env, cfg: Config, from: nat): (k: nat)
    requires cfg.batchWriteSize >= 1 && from <= LoopTotal(|recs|, cfg.batchWriteSize)
    ensures from <= k <= LoopTotal(|recs|, cfg.batchWriteSize)
    ensures forall j :: from <= j < k ==> Completed(Reply(recs, j, env, cfg), cfg.tableName)
    ensures k < LoopTotal(|recs|, cfg.batchWriteSize) ==> !Completed(Reply(recs, k, env, cfg), cfg.tableName)
    decreases LoopTotal(|recs|, cfg.batchWriteSize) - from
  {
    if from == LoopTotal(|recs|, cfg.batchWriteSize) then from
    else if !Completed(Reply(recs, from, env, cfg), cfg.tableName) then from
    else FirstFailure(recs, env, cfg, from + 1)
  }

  /** What one invocation returns, with every batch request it sent, in order. */
  datatype Run = Run(response: Response, writes: seq<BatchWriteRequest>)

  /** The batches up to and including the first failure are sent; the failure decides the response. */
  function WriteAll(recs: seq<Record>, env: Env, cfg: Config): Run
    requires cfg.batchWriteSize >= 1
  {
    var n := LoopTotal(|recs|, cfg.batchWriteSize);
    var k := FirstFailure(recs, env, cfg, 0);
    var sent := if k < n then k + 1 else n;
    var writes := Batches(recs, env, cfg, sent);
    if k == n then Run(Succeeded, writes) else Run(Failed(WriteError(k, Reply(recs, k, env, cfg))), writes)
  }

  /** The error reported for a batch the store did not complete. */
  function WriteError(batch: nat, outcome: WriteOutcome): HandlerError
  {
    match outcome
    case Threw(e) => StoreThrew(batch, e)
    case Written(u) => Unprocessed(batch, u)
  }

  /** Helper: the run when batch `i` is the first the store does not complete. */
  lemma WriteAllFailsAt(recs: seq<Record>, env: Env, cfg: Config, i: nat)
    requires cfg.batchWriteSize >= 1 && i < LoopTotal(|recs|, cfg.batchWriteSize)
    requires forall b :: 0 <= b < i ==> Completed(Reply(recs, b, env, cfg), cfg.tableName)
    requires !Completed(Reply(recs, i, env, cfg), cfg.tableName)
    ensures WriteAll(recs, env, cfg) == Run(Failed(WriteError(i, Reply(recs, i, env, cfg))), Batches(recs, env, cfg, i + 1))
  {
    FirstFailureAt(recs, env, cfg, i);
  }

  /** Helper: the run when the store completes every batch. */
  lemma WriteAllSucceeds(recs: seq<Record>, env: Env, cfg: Config)
    requires cfg.batchWriteSize >= 1
    requires forall b :: 0 <= b < LoopTotal(|recs|, cfg.batchWriteSize) ==> Completed(Reply(recs, b, env, cfg), cfg.tableName)
    ensures WriteAll(recs, env, cfg) == Run(Succeeded, Batches(recs, env, cfg, LoopTotal(|recs|, cfg.batchWriteSize)))
  {
    FirstFailureAt(recs, env, cfg, LoopTotal(|recs|, cfg.batchWriteSize));
  }

  /** The whole invocation: fetching and parsing/validation failures send nothing. */
  function Ingest(event: Event, env: Env, cfg: Config): Run
    requires cfg.batchWriteSize >= 1
  {
    match GetCsvData(event, env.s3GetObject)
    case Failure(e) => Run(Failed(FetchFailed(e)), [])
    case Success(text) =>
      match env.parse(text)
      case Failure(e) => Run(Failed(InvalidData(e)), [])
      case Success(table) =>
        match Validate(table)
        case Failure(v) => Run(Failed(InvalidData(v.Message())), [])
        case Success(recs) => WriteAll(recs, env, cfg)
  }

  // ---------------------------------------------------------------------------
  // The handler itself.

  /**
   * `handler`: fetch, check, then for each batch build the request over the
   * records array and send it, returning at the first batch that throws or
   * reports unprocessed items for the table.
   */
  method HandleEvent(event: Event, env: Env, cfg: Config) returns (response: Response, writes: seq<BatchWriteRequest>)
    requires cfg.batchWriteSize >= 1
    ensures Run(response, writes) == Ingest(event, env, cfg)
  {
    var csvData := GetCsvData(event, env.s3GetObject);
    if csvData.Failure? {
      return Failed(FetchFailed(csvData.error)), [];
    }
    var parsed := env.parse(csvData.value);
    if parsed.Failure? {
      return Failed(InvalidData(parsed.error)), [];
    }
    var checked := CheckCsvData(parsed.value);
    if checked.Failure? {
      return Failed(InvalidData(checked.error.Message())), [];
    }
    response, writes := WriteBatches(checked.value, env, cfg);
  }

  /**
   * The batch loop of `handler` over the validated records: `loopTotal`
   * batches of `batchWriteSize` records, the last one taking the rest, sent
   * in order until one fails.
   */
  method WriteBatches(recs: seq<Record>, env: Env, cfg: Config) returns (response: Response, writes: seq<BatchWriteRequest>)
    requires cfg.batchWriteSize >= 1
    ensures Run(response, writes) == WriteAll(recs, env, cfg)
  {
    writes := [];
    var records := new Record[|recs|](k requires 0 <= k < |recs| => recs[k]);
    var size := cfg.batchWriteSize;
    var total := records.Length;
    var loopTotal := LoopTotal(total, size);
    for i := 0 to loopTotal
      invariant records.Length == total == |recs|
      invariant forall k :: Offset(i, size) <= k < total ==> records[k] == recs[k]
      invariant |writes| == i
      invariant forall b :: 0 <= b < i ==> writes[b] == Batch(recs, b, env, cfg)
      invariant forall b :: 0 <= b < i ==> Completed(Reply(recs, b, env, cfg), cfg.tableName)
    {
      var offset := i * size;
      var handleSize := if i < loopTotal - 1 then size else total - offset;
      assert offset == Offset(i, size) && handleSize == HandleSize(i, total, size);
      BatchBounds(i, total, size);
      ghost var window := records[offset..offset + handleSize];
      assert window == recs[offset..offset + handleSize];
      var requestParams := GetBatchWriteData(records, offset, handleSize, cfg.tableName, env.idOf, env.parseFloat);
      assert requestParams == Batch(recs, i, env, cfg) by {
        WindowIsBatch(recs, i, env, cfg, window);
      }
      var result := env.batchWrite(i, requestParams);
      writes := writes + [requestParams];
      if !Completed(result, cfg.tableName) {
        WriteAllFailsAt(recs, env, cfg, i);
        assert writes == Batches(recs, env, cfg, i + 1);
        match result
        case Threw(e) => return Failed(StoreThrew(i, e)), writes;
        case Written(u) => return Failed(Unprocessed(i, u)), writes;
      }
    }
    WriteAllSucceeds(recs, env, cfg);
    assert writes == Batches(recs, env, cfg, loopTotal);
    response := Succeeded;
  }

  /** Helper: the request built over the records of batch `i` is that batch's request. */
  lemma WindowIsBatch(recs: seq<Record>, i: nat, env: Env, cfg: Config, window: seq<Record>)
    requires cfg.batchWriteSize >= 1 && i < LoopTotal(|recs|, cfg.batchWriteSize)
    requires Offset(i, cfg.batchWriteSize) + HandleSize(i, |recs|, cfg.batchWriteSize) <= |recs|
    requires window == recs[Offset(i, cfg.batchWriteSize)..Offset(i, cfg.batchWriteSize) + HandleSize(i, |recs|, cfg.batchWriteSize)]
    ensures BatchRequest(window, cfg.tableName, env.idOf, env.parseFloat) == Batch(recs, i, env, cfg)
  {
  }

  /** Helper: a batch preceded only by completed batches, and itself failed or past the end, is the first failure. */
  lemma FirstFailureAt(recs: seq<Record>, env: Env, cfg: Config, i: nat)
    requires cfg.batchWriteSize >= 1 && i <= LoopTotal(|recs|, cfg.batchWriteSize)
    requires forall b :: 0 <= b < i ==> Completed(Reply(recs, b, env, cfg), cfg.tableName)
    requires i < LoopTotal(|recs|, cfg.batchWriteSize) ==> !Completed(Reply(recs, i, env, cfg), cfg.tableName)
    ensures FirstFailure(recs, env, cfg, 0) == i
  {
  }

  // ---------------------------------------------------------------------------
  // Properties of an invocation.

  /** The put requests a batch (or several) carries for `tableName`, concatenated in sending order. */
  function Flatten(writes: seq<BatchWriteRequest>, tableName: string): seq<PutRequest>
  {
    if writes == [] then []
    else
      var last := writes[|writes| - 1];
      Flatten(writes[..|writes| - 1], tableName) + (if tableName in last.requestItems then last.requestItems[tableName] else [])
  }

  /** One put request per record, in order. */
  function PutRequests(recs: seq<Record>, env: Env): seq<PutRequest>
  {
    seq(|recs|, k requires 0 <= k < |recs| => PutRequest(PutItem(recs[k], env.idOf, env.parseFloat)))
  }

  /** Helper: the put requests of a prefix, split at `start`. */
  lemma PutRequestsSplit(recs: seq<Record>, start: nat, stop: nat, env: Env)
    requires start <= stop <= |recs|
    ensures PutRequests(recs[..stop], env) == PutRequests(recs[..start], env) + PutRequests(recs[start..stop], env)
  {
    assert recs[..start] + recs[start..stop] == recs[..stop];
  }

  /** Helper: the put requests that batch `i` carries for the table. */
  lemma BatchItems(recs: seq<Record>, i: nat, env: Env, cfg: Config)
    requires cfg.batchWriteSize >= 1 && i < LoopTotal(|recs|, cfg.batchWriteSize)
    ensures Offset(i, cfg.batchWriteSize) + HandleSize(i, |recs|, cfg.batchWriteSize) <= |recs|
    ensures Batch(recs, i, env, cfg).requestItems.Keys == {cfg.tableName}
    ensures Batch(recs, i, env, cfg).requestItems[cfg.tableName] ==
            PutRequests(recs[Offset(i, cfg.batchWriteSize)..Offset(i, cfg.batchWriteSize) + HandleSize(i, |recs|, cfg.batchWriteSize)], env)
  {
    BatchBounds(i, |recs|, cfg.batchWriteSize);
  }

  /** The first `b` batch requests, in sending order. */
  function Batches(recs: seq<Record>, env: Env, cfg: Config, b: nat): (ws: seq<BatchWriteRequest>)
    requires cfg.batchWriteSize >= 1 && b <= LoopTotal(|recs|, cfg.batchWriteSize)
    ensures |ws| == b
    ensures forall i :: 0 <= i < b ==> ws[i] == Batch(recs, i, env, cfg)
  {
    seq(b, i requires 0 <= i < b => Batch(recs, i, env, cfg))
  }

  /** Helper: flattening one more request appends its put requests. */
  lemma FlattenSnoc(ws: seq<BatchWriteRequest>, w: BatchWriteRequest, tableName: string)
    ensures Flatten(ws + [w], tableName) == Flatten(ws, tableName) + (if tableName in w.requestItems then w.requestItems[tableName] else [])
  {
    assert (ws + [w])[..|ws|] == ws;
  }

  /**
   * The first `b` batches together carry exactly the records before batch
   * `b` starts (all of them once `b` is the batch count), each once and in
   * table order.
   */
  lemma {:induction false} BatchesCoverPrefix(recs: seq<Record>, env: Env, cfg: Config, b: nat)
    requires cfg.batchWriteSize >= 1 && b <= LoopTotal(|recs|, cfg.batchWriteSize)
    ensures Covered(b, |recs|, cfg.batchWriteSize) <= |recs|
    ensures Flatten(Batches(recs, env, cfg, b), cfg.tableName) == PutRequests(recs[..Covered(b, |recs|, cfg.batchWriteSize)], env)
  {
    var size := cfg.batchWriteSize;
    CoveredBounds(b, |recs|, size);
    if b == 0 {
      assert Batches(recs, env, cfg, 0) == [];
    } else {
      BatchesCoverPrefix(recs, env, cfg, b - 1);
      BatchItems(recs, b - 1, env, cfg);
      var start := Covered(b - 1, |recs|, size);
      var stop := Covered(b, |recs|, size);
      var last := Batch(recs, b - 1, env, cfg);
      assert Batches(recs, env, cfg, b) == Batches(recs, env, cfg, b - 1) + [last];
      FlattenSnoc(Batches(recs, env, cfg, b - 1), last, cfg.tableName);
      assert last.requestItems[cfg.tableName] == PutRequests(recs[start..stop], env);
      PutRequestsSplit(recs, start, stop, env);
    }
  }

  /**
   * A run that ends in a write error stopped at the first batch the store
   * did not complete: every earlier batch completed, that batch was the last
   * one sent, and no later batch was sent.
   */
  lemma StopsAtFirstFailure(recs: seq<Record>, env: Env, cfg: Config)
    requires cfg.batchWriteSize >= 1
    ensures var run := WriteAll(recs, env, cfg);
            run.response.Failed? ==>
              && (run.response.error.Unprocessed? || run.response.error.StoreThrew?)
              && var k := run.response.error.batch;
              && k < LoopTotal(|recs|, cfg.batchWriteSize)
              && |run.writes| == k + 1
              && (forall j :: 0 <= j < k ==> Completed(Reply(recs, j, env, cfg), cfg.tableName))
              && !Completed(Reply(recs, k, env, cfg), cfg.tableName)
              && (forall j :: 0 <= j <= k ==> run.writes[j] == Batch(recs, j, env, cfg))
  {
  }

  /**
   * The write phase succeeds exactly when the store completes every batch;
   * then every batch was sent once, and together they put every record once,
   * in table order.
   */
  lemma SucceedsIffAllComplete(recs: seq<Record>, env: Env, cfg: Config)
    requires cfg.batchWriteSize >= 1
    ensures var run := WriteAll(recs, env, cfg);
            run.response == Succeeded <==>
              forall i :: 0 <= i < LoopTotal(|recs|, cfg.batchWriteSize) ==> Completed(Reply(recs, i, env, cfg), cfg.tableName)
    ensures var run := WriteAll(recs, env, cfg);
            run.response == Succeeded ==>
              && |run.writes| == LoopTotal(|recs|, cfg.batchWriteSize)
              && Flatten(run.writes, cfg.tableName) == PutRequests(recs, env)
  {
    var n := LoopTotal(|recs|, cfg.batchWriteSize);
    var k := FirstFailure(recs, env, cfg, 0);
    if k == n {
      BatchesCoverPrefix(recs, env, cfg, n);
      assert recs[..|recs|] == recs;
    }
  }

  /** A parse or validation failure is an invalid-data response, and nothing is written. */
  lemma InvalidDataWritesNothing(event: Event, env: Env, cfg: Config)
    requires cfg.batchWriteSize >= 1
    ensures var run := Ingest(event, env, cfg);
            run.response.Failed? && run.response.error.InvalidData? ==>
              run.writes == [] && StatusCode(run.response, cfg) == cfg.invalidDataError
    ensures var data := GetCsvData(event, env.s3GetObject);
            data.Success? && env.parse(data.value).Success? && Validate(env.parse(data.value).value).Failure? ==>
              Ingest(event, env, cfg) == Run(Failed(InvalidData(Validate(env.parse(data.value).value).error.Message())), [])
  {
  }

  /**
   * An S3 key that fails the file-type check is reported as a write error
   * (the check throws inside the handler's outer `try`), and nothing is written.
   */
  lemma RejectedKeyIsWriteError(bucket: string, key: string, env: Env, cfg: Config)
    requires cfg.batchWriteSize >= 1 && CsvType(key).Failure?
    ensures Ingest(S3Event(bucket, key), env, cfg) == Run(Failed(FetchFailed(CsvType(key).error)), [])
    ensures StatusCode(Ingest(S3Event(bucket, key), env, cfg).response, cfg) == cfg.writeDbError
  {
  }

  /**
   * An API request hands its body to the parser as it is (text, or an object's
   * stringified form); a request without a body is reported as a write error,
   * and nothing is written.
   */
  lemma ApiBodyHandling(body: ApiBody, env: Env, cfg: Config)
    requires cfg.batchWriteSize >= 1
    ensures body.NoBody? ==> Ingest(ApiEvent(body), env, cfg) == Run(Failed(FetchFailed(NoBodyMessage)), [])
    ensures body.Text? ==> GetCsvData(ApiEvent(body), env.s3GetObject) == Success(body.text)
    ensures body.Structured? ==> GetCsvData(ApiEvent(body), env.s3GetObject) == Success(body.stringified)
  {
  }

  /**
   * Twenty-five valid records in batches of ten, the store leaving items of the
   * table unprocessed in the second batch: a write error at batch 1, after two
   * requests of ten records each; the third batch is never sent.
   */
  lemma SecondOfThreeBatchesFails(recs: seq<Record>, env: Env, cfg: Config)
    requires |recs| == 25 && cfg.batchWriteSize == 10
    requires Completed(Reply(recs, 0, env, cfg), cfg.tableName)
    requires Reply(recs, 1, env, cfg).Written? && !Completed(Reply(recs, 1, env, cfg), cfg.tableName)
    ensures WriteAll(recs, env, cfg).response == Failed(Unprocessed(1, Reply(recs, 1, env, cfg).unprocessedItems))
    ensures |WriteAll(recs, env, cfg).writes| == 2
    ensures forall j :: 0 <= j < 2 ==> |WriteAll(recs, env, cfg).writes[j].requestItems[cfg.tableName]| == 10
  {
    TwentyFiveByTen();
    FirstFailureAt(recs, env, cfg, 1);
  }

  /** Two valid records in batches of ten: one request with both records; success when the store completes it. */
  lemma SmallTableOneBatch(recs: seq<Record>, env: Env, cfg: Config)
    requires |recs| == 2 && cfg.batchWriteSize == 10
    ensures LoopTotal(|recs|, cfg.batchWriteSize) == 1
    ensures Completed(Reply(recs, 0, env, cfg), cfg.tableName) ==>
              && WriteAll(recs, env, cfg).response == Succeeded
              && WriteAll(recs, env, cfg).writes == [BatchRequest(recs, cfg.tableName, env.idOf, env.parseFloat)]
  {
    if Completed(Reply(recs, 0, env, cfg), cfg.tableName) {
      FirstFailureAt(recs, env, cfg, 1);
      assert recs[0..2] == recs;
    }
  }

  /** With distinct non-zero error codes, the status code tells the three outcomes apart. */
  lemma StatusCodes(response: Response, cfg: Config)
    requires cfg.invalidDataError != 0 && cfg.writeDbError != 0 && cfg.invalidDataError != cfg.writeDbError
    ensures StatusCode(response, cfg) == 0 <==> response == Succeeded
    ensures StatusCode(response, cfg) == cfg.invalidDataError <==> response.Failed? && response.error.InvalidData?
    ensures StatusCode(response, cfg) == cfg.writeDbError <==> response.Failed? && !response.error.InvalidData?
  {
  }
}
