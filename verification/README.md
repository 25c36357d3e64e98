# CSV-to-DynamoDB ingest lambda, modelled in Dafny

This project models the core of an AWS Lambda, `src/index.js`. The lambda
receives a CSV document, either as an S3 upload notification or as the body of
an API request. It parses the document into records and checks the columns of
the first record against `address`, `latitude` and `longitude`. It then writes
the records to a DynamoDB table in batches of `batchWriteSize`, in order, and
stops at the first batch that the store throws on or leaves items
unprocessed for the table. Each written item is keyed by `id`, the md5 of the
record's JSON text taken before `latitude` and `longitude` go through
`parseFloat`.

Modules, one per concern of the source:

- `Records` (records.dfy): a parsed record is a JavaScript object. It is
  modelled as a list of (key, value) pairs in `Object.keys` order. The module
  defines property read, property write and `Object.assign`, following
  JavaScript's rules for string keys.
- `Validation` (validation.dfy): `checkCsvData` after parsing. It includes the
  default string order of `Array.prototype.sort` and a sort function proved to
  return an ordered permutation of its input.
- `S3Key` (s3_key.dfy): the file-type check on the S3 object key.
- `Partition` (partition.dfy): `loopTotal`, the batch offsets and the batch
  sizes.
- `BatchWrite` (batch_write.dfy): `getBatchWriteData`, a method that works in
  place on an `array` of records.
- `Handler` (handler.dfy): `getCsvData`, and `handler` as two methods.
  `HandleEvent` is proved equal to the reference function `Ingest`, and its
  batch loop `WriteBatches` to the reference function `WriteAll`, which
  describes the run through `FirstFailure`, the first batch the store does not
  complete.

The collaborators the lambda calls are parameters, collected in `Handler.Env`:

- S3 `getObject`: `s3GetObject`.
- csv-parse: `parse`.
- `md5(JSON.stringify(record))`: `idOf`.
- `parseFloat`: `parseFloat`.
- DynamoDB `batchWrite`: `batchWrite`. It takes the call index and the
  request, and returns either the unprocessed items per table or a thrown
  error.

The table name, the batch size and the two error codes from `./config` and
`./error` are the fields of `Handler.Config`.

Two behaviours of the code are worth knowing:

- An S3 key with an unsupported suffix, a failed S3 read and an API request
  without a body all throw inside the handler's outer `try`. They are
  therefore answered with `WriteDbError`, not `InvalidDataError`. See
  `RejectedKeyIsWriteError` and `ApiBodyHandling`.
- Only the first record's columns are checked. See `ValidateOnlyFirst`.

## Model

| member | source | states |
|---|---|---|
| Records.GetSet | src/index.js:82-83 | writing `r[k] = v` makes `k` read back `v` and leaves every other key's value as it was |
| Records.NamesSet | src/index.js:82-83 | a property write keeps the key order; a key that was absent is appended at the end |
| Records.SetKeyed | src/index.js:82-83 | a property write never creates a duplicate key |
| Records.GetAbsent | src/index.js:82 | reading a key the record lacks gives `undefined` |
| Records.GetAssign | src/index.js:85 | after `Object.assign(target, source)`, each key of `source` reads its value from `source` and every other key reads from `target` |
| Records.NamesAssign | src/index.js:85 | `Object.assign` with disjoint keys lists the target's keys first, then the source's, each in order |
| Validation.SortStrings | src/index.js:52 | sorting yields an ordered sequence with the same elements (a permutation) |
| Validation.SortedUnique | src/index.js:52-57 | two ordered sequences with the same elements are equal, so comparing sorted key lists position by position compares key multisets |
| Validation.SortedIffSameMultiset | src/index.js:52-57 | two key lists sort to the same sequence exactly when they hold the same keys |
| Validation.BelowTotal | src/index.js:52 | the string order used by the sort is total |
| Validation.BelowTransitive | src/index.js:52 | the string order used by the sort is transitive |
| Validation.ColumnsSorted | src/index.js:19-20 | sorting the declared columns gives `["address", "latitude", "longitude"]` |
| Validation.CheckCsvData | src/index.js:43-58 | the sort-and-compare loop returns exactly `Validate`: format error when empty, length mismatch, name mismatch, or the unchanged records |
| Validation.ValidateAccepts | src/index.js:48-58 | success holds exactly when the table is non-empty and the first record's keys are `address`, `latitude` and `longitude` as a multiset; on success the records come back unchanged |
| Validation.ValidateAcceptsKeyed | src/index.js:48-57 | for a record without repeated keys: success holds exactly when it has three keys including all three columns |
| Validation.ValidateErrors | src/index.js:43-51 | an empty table is a format error, and a first record without exactly three keys is a length mismatch |
| Validation.ValidateOnlyFirst | src/index.js:48 | tables with the same first record get the same verdict, so later records are never inspected |
| Validation.RenamedColumnsRejected | src/index.js:53-56 | a header `lat,long,address` is a column name mismatch |
| S3Key.CsvType | src/index.js:113-122 | the check either accepts with the type `"csv"` or fails with one of its two messages; it fails with "Could not determine the csv type." exactly when the key has no `.` |
| S3Key.Lower | src/index.js:119 | lower-casing keeps the length and lower-cases each ASCII letter |
| S3Key.Extension | src/index.js:113 | the captured type is absent exactly when the key has no `.`; otherwise it is the dot-free text after the last `.` |
| S3Key.NoDotRejected | src/index.js:113-116 | the check fails with "Could not determine the csv type." exactly when the key has no `.` |
| S3Key.CsvAccepted | src/index.js:113-122 | a key is accepted exactly when it ends in `.` plus a case variant of `csv`; any other key with a `.` fails with "Unsupported file type" |
| S3Key.TrailingDotUnsupported | src/index.js:119-122 | a key ending in `.` has an empty type and is unsupported |
| Partition.LoopTotal | src/index.js:181 | `loopTotal` is the ceiling of total / size: its batches hold every record, and one batch fewer would not |
| Partition.OffsetInOwnBatch | src/index.js:184 | `offset` of batch `i` is a whole multiple of the batch size, and the record there lies in batch `i` |
| Partition.HandleSize | src/index.js:185 | `handleSize` is never more than the batch size, and at least one for every batch the loop visits |
| Partition.BatchBounds | src/index.js:183-186 | every batch holds 1 to `size` records inside the table; each batch but the last ends where the next begins; the last ends at `total` |
| Partition.BatchContaining | src/index.js:183-186 | record `k` lies in batch `k / size` and in no other batch |
| Partition.TwentyFiveByTen | src/index.js:181-185 | 25 records in batches of 10 give three batches of 10, 10 and 5 |
| BatchWrite.Coerced | src/index.js:82-83 | coercing a record adds at most two keys, and only `latitude` and `longitude` |
| BatchWrite.CoerceAt | src/index.js:82-83 | the two in-place writes leave `records[k]` coerced and every other slot of the array unchanged |
| BatchWrite.CoercedFields | src/index.js:82-83 | coercion sets `latitude` and `longitude` to the parsed originals and leaves every other key (the address among them) unchanged; with both coordinates present, the key order is kept |
| BatchWrite.PutItemGet | src/index.js:81-85 | the item carries every coerced field; its `id` is `idOf` of the record before coercion, unless the record has its own `id` column, which wins |
| BatchWrite.PutItem | src/index.js:81-85 | the put item is never empty and its first key is `id`, as with `Object.assign({ id }, record)` |
| BatchWrite.PutItemNames | src/index.js:85 | without an `id` column and with both coordinates present, the item's keys are `id` followed by the record's keys in order |
| BatchWrite.GetBatchWriteData | src/index.js:75-89 | the request has one put per window record, in order, under the table name only; window records are coerced in place; records outside the window are unchanged |
| Handler.GetCsvData | src/index.js:106-147 | an S3 event whose key fails the type check gives that check's message, and the object is fetched only for a key that passes; an API event fails exactly when it has no body, with "exception api request, no body data" |
| Handler.StatusCode | src/index.js:61-67 | the status code is 0 for success and one of the two configured error codes for a failure, `InvalidDataError` for invalid data |
| Handler.FirstFailure | src/index.js:183-199 | the result is the least batch the store does not complete, or the batch count when every batch completes |
| Handler.HandleEvent | src/index.js:168-207 | the handler's response and the requests it sends equal `Ingest` |
| Handler.WriteBatches | src/index.js:180-206 | the batch loop's response and requests equal `WriteAll`: batches are sent in order up to and including the first failure |
| Handler.BatchesCoverPrefix | src/index.js:183-186 | the first `b` batches together put exactly the records before batch `b`, each once and in table order |
| Handler.StopsAtFirstFailure | src/index.js:189-199 | a write error names batch `k`: all earlier batches completed, batch `k` did not, it was the last request sent, and no later batch was sent |
| Handler.SucceedsIffAllComplete | src/index.js:183-206 | the write phase succeeds exactly when every batch completes; then every record is put exactly once, in order |
| Handler.InvalidDataWritesNothing | src/index.js:174-178 | an invalid-data response writes nothing and carries `InvalidDataError`; a validation failure is answered with the message `checkCsvData` throws |
| Handler.RejectedKeyIsWriteError | src/index.js:171-204 | an S3 key that fails the type check gives `WriteDbError` with that message, and nothing is written |
| Handler.ApiBodyHandling | src/index.js:131-139 | an API body (text or stringified object) goes to the parser as it is; a missing body gives a write error with nothing written |
| Handler.SecondOfThreeBatchesFails | src/index.js:180-199 | 25 records in batches of 10, with the second batch left unprocessed: a write error at batch 1 after two requests of 10 items; the third batch is never sent |
| Handler.SmallTableOneBatch | src/index.js:180-206 | 2 records in batches of 10: one request holding both records; success when the store completes it |
| Handler.StatusCodes | src/index.js:149-155 | with distinct non-zero codes, status 0 means success, `InvalidDataError` means invalid data, and `WriteDbError` means every other failure |

## Left out

- CSV parsing by csv-parse is a foreign library. It is the parameter `parse`. A parse failure is modelled, but not the grammar.
- md5 and `JSON.stringify` are not modelled. The id is the parameter `idOf`, applied to the record before coercion.
- `parseFloat` is floating-point work. It is an uninterpreted parameter from a value to a 64-bit pattern. It never fails, and NaN is not singled out.
- AWS I/O (S3 `getObject`, DynamoDB `batchWrite`) is replaced by parameters. The store's answer to each call is an input, so what it persists, and any partial writes, are not modelled.
- SNS `publish` in `handleError` is left out. It is best-effort, its errors are swallowed, and it never changes the response.
- The response body and `JSON.stringify` of error messages are left out. The model returns a response kind (`Handler.Response`), and `StatusCode` maps it to `statusCode`. Write-error messages are carried as structured data, not as formatted text.
- `decodeURIComponent` and the removal of `+` from the S3 key are left out. The S3 event's key arrives already decoded.
- Async/await sequencing and console logging are left out. The model is a single sequential run.
- `S3Key.Lower` lower-cases ASCII letters only. JavaScript's `toLowerCase` is full Unicode, but no other character lower-cases to `c`, `s` or `v`, so the accept/reject decision is the same.
- `Validation.Below` compares characters by code point. JavaScript's default sort compares UTF-16 code units, which differs only between characters above U+FFFF and those in U+E000–U+FFFF.
- JavaScript enumerates integer-like keys before other keys. `Records.Set` always appends a new key, which matches the source for the keys it writes (`latitude`, `longitude`, `id`).
- The records array holds record values. Two array slots that alias one object, which csv-parse never produces, are not modelled.
- `batchWriteSize` is assumed to be at least 1 (the `requires` of `Handler.HandleEvent`, `Handler.WriteBatches` and `Partition.LoopTotal`). With 0, `total / 0` is `Infinity` and nothing throws, so `loopTotal` is `Infinity`. Every batch then satisfies `i < loopTotal - 1` and is sent at offset 0 with `handleSize` 0, as an empty put list for the table. A store that rejects such a request ends the run with `WriteDbError`; a store that accepts it keeps the loop running forever. An empty table never reaches the loop: `checkCsvData` rejects it as invalid data. The model leaves out this configuration.
- The parser's check that its output is an array (`!Array.isArray(records)`) is not modelled. The parsed table is always a sequence, so only the empty case remains.
