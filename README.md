# Multipart upload and S3 event reconciliation of a Dropbox-like file store

This project models the core of a small file-storage service. A browser client cuts a file
into parts, asks the backend for one presigned S3 URL per part, PUTs every part to its URL,
reports each part to the backend, and then asks the backend to complete the multipart upload.
The backend keeps one record per file and one per uploaded chunk in a relational store
(Prisma). It keeps the short-lived upload session (`uploadId -> {bucket, key}`) in Redis.
Afterwards, S3 event notifications that arrive through SQS mark the file's record with its
final status and size.

The model covers six parts of the system:

- **Multipart upload controller** (`FileController`). Its three HTTP handlers are `getUrls`,
  `recordChunkUpload` and `completeUpload`, and they share the cleanup `cleanupFailedUpload`.
  Each handler is a method of the class `FileController.FileController`. Each method is proved
  equal to a specification function (`GetUrlsSpec`, `RecordChunkSpec`, `CompleteUploadSpec`,
  `CleanupSpec`). That function maps the collaborators' state before the request to the
  response and the state after it. The handlers' properties are lemmas about these functions.
- **Collaborators**:
  - the record store (`Store`), with one operation per function of `prisma.util.ts`, over two
    maps keyed as the schema keys them;
  - the session cache (`SessionStore`);
  - the object store as reached through `S3Uploader` (`Storage`), which is a log of the calls
    made to it.

  Every collaborator fails or answers as a fault oracle says. The oracle is indexed by the
  number of calls that collaborator has served.
- **S3 event reconciliation**, in three copies that coexist in the repository:
  - `Reconciler` covers the shared helpers: envelope parsing, key decoding and
    `processS3Record`.
  - `PollingWorker` is the polling worker, which writes `UPLOADED`.
  - `QueueService` is the queue service, which writes `"complete"`. It is proved to acknowledge
    exactly like the worker.
  - `LegacyPoller` is the legacy poller. It swallows store errors and keeps unparseable
    messages, and it is proved to differ from the others exactly there.
- **The browser client** (`UploadClient`): `FileUploader` with its part slicing and its upload
  sequence, over a network whose answers come from an oracle.
- **Request validation of the auth routes** (`AuthValidation`): `validateAuthBody`.
- **JavaScript built-ins** the code relies on (`Js`, `UriCodec`): `parseInt` with radix 10
  and with no radix (which reads a "0x" prefix as hexadecimal), `String` of a number (exponent
  notation from 1e21 on), `trim`, `Math.ceil`, `Blob.slice` and `decodeURIComponent`. The
  percent-decoder follows the UTF-8 encoding of RFC 3629.

JSON values are the datatype `Js.Value`. `JSON.parse` is a parameter (the `JsonParser`
oracle), and the model assumes nothing about it. Numbers are integers.

Some behaviours of the code as written, which the lemmas below establish:

- **A failed getUrls for a new file never aborts its upload.** `cleanupFailedUpload` first
  deletes the file's record. When getUrls fails for a file id that has no record yet, that
  deletion throws, and the cleanup stops before the abort. So the multipart upload started in
  S3 is never aborted, and a session binding already written stays in the cache
  (`GetUrlsFailureForNewFileNeverAborts`).
- **The URL-count check after the presign loop can never fire** (`UrlCountCheckIsDead`).
- **A duplicate chunk answers 500 and deletes the file.** Any failed chunk insert, a duplicate
  `(file_id, chunk_index)` included, answers 500 and deletes the file's record and all its
  chunks. No conflict status is answered (`RecordChunkFailureDeletesFile`).
- **A refused completion answers 500, and the 400 branch is dead.** `S3Uploader.completeUpload`
  answers `success: true` or throws. So the controller's `!result.success` branch, which aborts
  and answers 400, cannot be taken: a completion S3 refuses throws into the catch block, which
  aborts the upload while the session is still bound and answers 500
  (`CompleteUploadBadRequestOnlyForFields`, `CompletionFailedAborts`). The model keeps the
  branch for a storage reply that says `success: false`, and `CompleteUploadRejected` states
  what it would do. Neither path marks the file `FAILED`.
- **A huge numeric size passes the size check.** `parseInt(file_size, 10)` first turns a
  number into text, and from 1e21 on that text is in exponent notation, so only its leading
  digit is read: a `file_size` of `1e21` is accepted, and recorded, as 1 byte
  (`FileSizeOfNumber`).
- **The legacy poller keeps unparseable messages.** Unlike the other two pollers, it leaves an
  unparseable message in the queue, to be delivered again (`UnparseableBodies`).

In three places the intended behaviour is evidently other than what the code does, and the
model follows the code: a duplicate chunk should answer 409 Conflict, but answers 500; a
completion that fails should mark the file `FAILED`, but leaves its status; and `chunk_index`
should be an integer below the part count, but is only checked to be a number `>= 0`. Each
is listed under "Left out" below.

## Model

Paths are relative to the repository root.

| member | source | states |
|---|---|---|
| Js.NatToDecimal | frontend/src/main.ts:44 | the decimal spelling of a natural number is a non-empty string of digits |
| Js.DigitsValueOfDecimal | frontend/src/main.ts:44 | the decimal spelling of a natural number reads back as that number |
| Js.Exponential | backend/src/domains/files/files.controller.ts:116 | `String(n)` in exponent notation starts with the number's own leading digit, followed by a point or an "e" |
| Js.Spelling | frontend/src/main.ts:44 | `String(m)` of a natural number starts with a digit, and what follows that digit is a digit, a point or an "e", never an "x" |
| Js.LeadingDigitSpelled | backend/src/domains/files/files.controller.ts:116 | the spelling of a natural number starts with its leading digit |
| Js.SpelledDigits | backend/src/domains/files/files.controller.ts:116 | below 1e21, the digits `parseInt` finds in `String(m)` are worth `m` |
| Js.SpelledLeadingDigit | backend/src/domains/files/files.controller.ts:116 | from 1e21 on, the digits `parseInt` finds in `String(m)` are only its leading digit |
| Js.DigitPrefix | backend/src/domains/files/files.controller.ts:116 | the digits `parseInt` reads: a prefix of the text, all digits, and not followed by a further digit |
| Js.CeilDiv | backend/src/domains/files/files.controller.ts:144 | `Math.ceil(a / b)` for a positive divisor: the least `q` with `a <= q * b`, never negative for a non-negative `a` |
| Js.TrimStartSuffix | backend/src/domains/auth/auth.validation.ts:12-24 | what `trimStart` leaves is a suffix of its input and starts with no whitespace |
| Js.TrimEmptyIffAllWhite | backend/src/domains/auth/auth.validation.ts:12-24 | `trim()` is empty exactly when every character is whitespace |
| Js.ParseIntOfUnsigned | backend/src/domains/files/files.controller.ts:116 | `parseInt` of text starting with digits reads exactly the leading digits |
| Js.ParseIntOfNegative | backend/src/domains/files/files.controller.ts:116 | a minus sign followed by digits reads as the negated value |
| Js.ParseIntOfNumber | backend/src/domains/files/files.controller.ts:116 | `parseInt(String(n), 10)`, also with any non-digit text after the number, is `n` below 1e21 in magnitude, and from there on only the leading digit with the sign of `n` |
| Js.HexPrefix | backend/src/shared/utils/sqs.util.ts:163 | the hexadecimal digits `parseInt` reads after "0x": a prefix of the text, all hex digits, and not followed by a further hex digit |
| Js.ParseIntAutoOfHex | backend/src/shared/utils/sqs.util.ts:163 | `parseInt` with no radix reads the hexadecimal digits after a sign and "0x" or "0X", negated after "-" |
| Js.ParseIntAutoOfNumber | backend/src/shared/utils/sqs.util.ts:163 | `String` of a number has no "0x" prefix, so `parseInt` reads it alike with no radix and with radix 10 |
| Js.ParseIntWithoutDigits | backend/src/domains/files/files.controller.ts:116-122 | text with no digit at all parses to NaN |
| UriCodec.HexChar | backend/src/shared/utils/sqs.util.ts:77-89 | the hex digit of 0..15 is a hex digit that reads back as that value |
| UriCodec.DecodeEscape | backend/src/shared/utils/sqs.util.ts:77-89 | one `%XX` escape run of `decodeURIComponent` takes at least its three characters and no more than there are |
| UriCodec.Utf8 | backend/src/shared/utils/sqs.util.ts:77-89 | the UTF-8 encoding of one character (RFC 3629) is 1 to 4 bytes long |
| UriCodec.Utf8Valid | backend/src/shared/utils/sqs.util.ts:77-89 | the UTF-8 bytes of every character from U+0080 on pass the decoder's validity checks and decode back to it |
| UriCodec.DecodeEscapeOfUtf8 | backend/src/shared/utils/sqs.util.ts:77-89 | the escapes of a character's UTF-8 bytes decode back to the character |
| UriCodec.DecodeEncode | backend/src/shared/utils/sqs.util.ts:77-89 | round trip: decoding the percent-encoding of any string gives the string back |
| UriCodec.DecodeWithoutEscapes | backend/src/shared/utils/sqs.util.ts:77-89 | a string without `%` is its own decoding |
| Store.DeleteFile | backend/src/shared/utils/prisma.util.ts:5-13 | deleting a record is refused exactly when there is no row with that id; otherwise only that row goes |
| Store.DeleteChunksOf | backend/src/shared/utils/prisma.util.ts:15-22 | `deleteMany` is never refused and removes exactly the chunks of that file |
| Store.SetFileStatus | backend/src/shared/utils/prisma.util.ts:24-38 | updating a record's status is refused when there is no row; otherwise only that row's status changes |
| Store.CreateFile | backend/src/shared/utils/prisma.util.ts:40-60 | creation is refused exactly when the file id or the S3 key is taken; otherwise exactly one row is added |
| Store.CreateChunk | backend/src/shared/utils/prisma.util.ts:62-79 | creation is refused exactly when `(fileId, chunkIndex)` is taken; otherwise exactly one chunk is added |
| Store.UpdateChunkRow | backend/src/shared/utils/prisma.util.ts:81-117 | updating a chunk changes exactly the `(fileId, chunkIndex)` row and is refused when there is none |
| Store.FailChunksOf | backend/src/shared/utils/prisma.util.ts:119-130 | every chunk of the file becomes FAILED, and no other chunk changes |
| Store.UpdateByKey | backend/src/shared/utils/sqs.util.ts:159-165 | an update by S3 key is refused when no row has the key or the size is NaN; otherwise only the row with that key changes, in status and size only |
| Store.CreateFileKeepsConsistent | backend/src/shared/utils/prisma.util.ts:40-60 | creating a record keeps ids and S3 keys unique |
| Store.UpdateByKeyKeepsConsistent | backend/src/shared/utils/sqs.util.ts:159-165 | an update by key keeps ids and S3 keys unique |
| Store.SetFileStatusKeepsConsistent | backend/src/shared/utils/prisma.util.ts:24-38 | a status update keeps the tables consistent |
| Store.CreateChunkKeepsConsistent | backend/src/shared/utils/prisma.util.ts:62-79 | creating a chunk keeps every chunk under its own key |
| Store.UpdateByKeyIdempotent | backend/src/shared/utils/sqs.util.ts:159-165 | an update by key creates no row, and repeating it changes nothing |
| Store.Database.constructor | backend/src/shared/utils/prisma.util.ts:1 | a client over the given tables that has served no call |
| Store.Database.DeleteFileMetadata | backend/src/shared/utils/prisma.util.ts:5-13 | `deleteFileMetadata`: the new tables are `DeleteFile` of the old, or unchanged on a failure |
| Store.Database.DeleteChunks | backend/src/shared/utils/prisma.util.ts:15-22 | `deleteChunks`: removes the file's chunks and no other |
| Store.Database.RecordUploadedMetadata | backend/src/shared/utils/prisma.util.ts:24-30 | `recordUploadedMetadata`: status UPLOADED on that record only |
| Store.Database.RecordFailedMetadata | backend/src/shared/utils/prisma.util.ts:32-38 | `recordFailedMetadata`: status FAILED on that record only |
| Store.Database.CreateFileMetadata | backend/src/shared/utils/prisma.util.ts:40-60 | `createFileMetadata`: one new row in status UPLOADING whose size is `parseInt(file_size, 10)` |
| Store.Database.CreatePendingChunk | backend/src/shared/utils/prisma.util.ts:62-79 | `createPendingChunk`: one new PENDING chunk keyed `(fileId, chunkIndex)` whose checksum is the etag |
| Store.Database.UpdateChunk | backend/src/shared/utils/prisma.util.ts:81-99 | `updateChunk`: checksum and status COMPLETED on exactly that chunk |
| Store.Database.RecordFailedChunkOne | backend/src/shared/utils/prisma.util.ts:101-117 | `recordFailedChunkOne`: status FAILED on exactly that chunk |
| Store.Database.RecordFailedChunkMany | backend/src/shared/utils/prisma.util.ts:119-130 | `recordFailedChunkMany`: status FAILED on every chunk of the file and no other |
| Store.Database.FindUniqueByS3Key | backend/src/shared/utils/sqs.util.ts:150-157 | the lookup by S3 key answers whether a row has the key and changes no row |
| Store.Database.UpdateByS3Key | backend/src/shared/utils/sqs.util.ts:159-165 | the update by S3 key leaves the tables `UpdateByKey` gives, or unchanged on a failure |
| SessionStore.SetSpec | backend/src/domains/files/files.controller.ts:172-180 | `SET` binds the key to the session exactly when the call does not fail, and nothing else changes |
| SessionStore.GetSpec | backend/src/domains/files/files.controller.ts:230 | `GET` answers the bound session, or null exactly when the key is unbound |
| SessionStore.DelSpec | backend/src/domains/files/files.controller.ts:89 | `DEL` unbinds exactly that key, whether or not it was bound |
| SessionStore.SessionCache.constructor | backend/src/domains/files/files.controller.ts:172-180 | a cache with the given bindings that has served no call |
| SessionStore.SessionCache.Set | backend/src/domains/files/files.controller.ts:172-180 | `rd.set` moves the cache as `SetSpec` says |
| SessionStore.SessionCache.Get | backend/src/domains/files/files.controller.ts:230 | `rd.get` answers and moves the cache as `GetSpec` says |
| SessionStore.SessionCache.Del | backend/src/domains/files/files.controller.ts:247 | `rd.del` moves the cache as `DelSpec` says |
| Storage.PartRefs | backend/src/shared/services/s3.service.ts:115-118 | `parts.map` copies `ETag` and `PartNumber` of every part in order, and throws exactly when some part is null or undefined |
| Storage.StorageGateway.constructor | backend/src/shared/services/s3.service.ts:64-67 | a store that has received no call |
| Storage.StorageGateway.Send | backend/src/shared/services/s3.service.ts:83 | `s3.send`: the call is logged and answered by the oracle |
| Storage.StorageGateway.InitUpload | backend/src/shared/services/s3.service.ts:76-86 | `initUpload`: one CreateMultipartUpload call for the uploader's bucket and key |
| Storage.StorageGateway.GeneratePresignedUrl | backend/src/shared/services/s3.service.ts:88-104 | `generateUploadUrls`: one presign call for that part number and upload id |
| Storage.StorageGateway.CompleteUpload | backend/src/shared/services/s3.service.ts:106-124 | `completeUpload`: one CompleteMultipartUpload call with the copied part list |
| Storage.StorageGateway.AbortUpload | backend/src/shared/services/s3.service.ts:126-134 | `abortUpload`: one AbortMultipartUpload call for that upload id |
| FileController.Answers | backend/src/domains/files/files.controller.ts:151-163 | the i-th URL of a run of presign calls is the answer to the i-th call |
| FileController.FirstFailure | backend/src/domains/files/files.controller.ts:151-163 | the number of presign calls that yield a URL before the first that does not: all calls before it succeed, and it fails |
| FileController.PartUrlCalls | backend/src/domains/files/files.controller.ts:151-163 | the presign calls for parts `from..to`: one per part, in ascending part order |
| FileController.PartUrlsSucceeds | backend/src/domains/files/files.controller.ts:151-163 | the part-URL loop succeeds exactly when every one of its calls yields a URL |
| FileController.PartUrlsCollected | backend/src/domains/files/files.controller.ts:151-163 | the URLs the loop returns are the answers to its calls, in part order |
| FileController.PartUrlsCalls | backend/src/domains/files/files.controller.ts:151-163 | the loop calls presign for every part in order when all succeed, and otherwise for the parts up to and including the first failing one, none after it |
| FileController.GetUrlsRejectsEarly | backend/src/domains/files/files.controller.ts:101-131 | getUrls answers 400 exactly when a field is missing or `parseInt(file_size, 10)` is not a positive integer of at most 1 GiB, and then it calls no collaborator |
| FileController.FileSizeOfNumber | backend/src/domains/files/files.controller.ts:116-129 | a numeric `file_size`, or its text, reads back as itself below 1e21 in magnitude; from 1e21 on it reads as its leading digit and passes the size checks |
| FileController.BindAndRecordSuccess | backend/src/domains/files/files.controller.ts:172-201 | when binding and recording succeed, the session is bound for 24 hours and an UPLOADING record exists, with no chunk and no storage call changed |
| FileController.GetUrlsAfterInitSuccess | backend/src/domains/files/files.controller.ts:144-201 | after a successful init, a successful getUrls made one presign call per part in order and returns the i-th answer as the i-th URL |
| FileController.GetUrlsSuccess | backend/src/domains/files/files.controller.ts:100-201 | a successful getUrls made one init call, then one presign call for each part `1..ceil(size / 5 MiB)` in order; it returns the URLs in part order, binds the session for 24 hours and leaves an UPLOADING record |
| FileController.GetUrlsInitFailure | backend/src/domains/files/files.controller.ts:136-141 | a failed init answers 500 after cleanup without an upload id |
| FileController.GetUrlsPartFailure | backend/src/domains/files/files.controller.ts:151-163 | a part whose URL cannot be had ends the loop: parts are asked for up to and including it, then cleanup runs with the upload id and 500 is answered |
| FileController.GetUrlsAfterInitFailure | backend/src/domains/files/files.controller.ts:151-215 | the state a presign failure leaves is the cleanup of the calls made up to that failure |
| FileController.UrlCountCheckIsDead | backend/src/domains/files/files.controller.ts:165-169 | the URL-count check after the loop never fires: a loop that does not throw yields one URL per part |
| FileController.CleanupOrder | backend/src/domains/files/files.controller.ts:79-98 | cleanup deletes the record, then the chunks; it aborts only when both succeeded and an upload id is known, and drops the binding only when the abort did not throw |
| FileController.CleanupStopsWithoutRecord | backend/src/domains/files/files.controller.ts:79-98 | with no record to delete, cleanup stops at its first step: no chunk deleted, no abort, the binding kept |
| FileController.BindAndRecordFailureForNewFile | backend/src/domains/files/files.controller.ts:172-215 | a failed bind-and-record for a new file changes no table and no storage call, and leaves at most the new binding |
| FileController.PartUrlCallsNoAbort | backend/src/domains/files/files.controller.ts:151-163 | the presign loop aborts nothing |
| FileController.GetUrlsAfterInitFailureForNewFile | backend/src/domains/files/files.controller.ts:144-215 | after a successful init, a failed getUrls for a new file changes no table, makes no abort call and leaves at most the new binding |
| FileController.GetUrlsFailureForNewFileNeverAborts | backend/src/domains/files/files.controller.ts:79-215 | a failed getUrls for a file id with no record never aborts the upload it started, leaves no record behind and may leave its session binding |
| FileController.CompleteUploadCacheMiss | backend/src/domains/files/files.controller.ts:230-237 | a valid completion whose session is not cached answers 404 and changes no table, no binding and no storage call |
| FileController.CompleteUploadNotFoundOnlyOnMiss | backend/src/domains/files/files.controller.ts:219-237 | only a cache miss answers 404 |
| FileController.CompleteUploadRejected | backend/src/domains/files/files.controller.ts:242-252 | if the storage service answered `success: false`, the completion would be followed by an abort, the binding dropped and 400 answered, with the file status untouched |
| FileController.CompleteUploadBadRequestOnlyForFields | backend/src/shared/services/s3.service.ts:106-124 | when the completion answers `success: true` or throws, as `completeUpload` is written to, completeUpload answers 400 exactly for a request with a missing field |
| FileController.CompleteUploadSuccess | backend/src/domains/files/files.controller.ts:218-262 | when completeUpload answers 200, the session was found, the completion accepted, the record marked UPLOADED and the binding dropped; only that record's status changed and the completion is the only storage call |
| FileController.CompleteUploadSucceeds | backend/src/domains/files/files.controller.ts:227-262 | conversely, a valid request whose session is bound in a healthy cache, whose parts copy, whose completion is accepted and whose record exists in a healthy database answers 200 when the DEL does not fail |
| FileController.CompleteAfterGetUrlsFindsSession | backend/src/domains/files/files.controller.ts:172-237 | after a successful getUrls, a valid completion for the upload id it answered, read from a healthy cache, never answers 404 |
| FileController.CompleteUploadTwice | backend/src/domains/files/files.controller.ts:230-255 | repeating a completed request against a healthy cache answers 404 and changes nothing, because the binding was dropped |
| FileController.CompletionFailedAborts | backend/src/domains/files/files.controller.ts:263-292 | the catch of completeUpload answers 500 and aborts exactly when it can still read the session binding |
| FileController.CompletionStatuses | backend/src/domains/files/files.controller.ts:242-292 | after the completion call the answer is 200, 400 or 500, and a 400 changes no table |
| FileController.CompletionFailedStatus | backend/src/domains/files/files.controller.ts:263-292 | the catch of completeUpload always answers 500 |
| FileController.CompletionAcceptedStatus | backend/src/domains/files/files.controller.ts:254-262 | after an accepted completion the answer is 200 or 500 |
| FileController.CompleteUploadClientErrorKeepsRecords | backend/src/domains/files/files.controller.ts:218-292 | a 400 or 404 from completeUpload leaves every record as it was |
| FileController.RecordChunkRejectsEarly | backend/src/domains/files/files.controller.ts:66-77 | recordChunkUpload answers 400, touching nothing, exactly when the request is invalid; a negative chunk index is invalid and any other number accepted |
| FileController.RecordChunkInserted | backend/src/domains/files/files.controller.ts:304-314 | the chunk is recorded as PENDING with the etag as checksum exactly when the insert succeeds, and nothing else changes |
| FileController.RecordChunkFailureDeletesFile | backend/src/domains/files/files.controller.ts:315-328 | any failed insert, a duplicate included, answers 500 and deletes the file's record and chunks; when those deletes succeed, nothing of the file remains |
| FileController.FileController.constructor | backend/src/domains/files/files.controller.ts:1-17 | a controller over the given store, cache, object store and bucket |
| FileController.FileController.CleanupFailedUpload | backend/src/domains/files/files.controller.ts:79-98 | `cleanupFailedUpload` leaves the collaborators as `CleanupSpec` says |
| FileController.FileController.GetUrls | backend/src/domains/files/files.controller.ts:100-216 | `getUrls` answers and leaves the collaborators as `GetUrlsSpec` says |
| FileController.FileController.GetUrlsWithUploadId | backend/src/domains/files/files.controller.ts:144-215 | the part of getUrls after a successful init, as `GetUrlsAfterInit` says |
| FileController.FileController.BindSessionAndRecord | backend/src/domains/files/files.controller.ts:172-215 | the binding and the record of getUrls, as `BindAndRecord` says |
| FileController.FileController.CollectPartUrls | backend/src/domains/files/files.controller.ts:151-163 | the presign `for` loop returns and logs what `PartUrls` says |
| FileController.FileController.CompletionCleanup | backend/src/domains/files/files.controller.ts:263-292 | the catch of completeUpload, as `CompletionFailed` says |
| FileController.FileController.CompleteUpload | backend/src/domains/files/files.controller.ts:218-293 | `completeUpload` answers and leaves the collaborators as `CompleteUploadSpec` says |
| FileController.FileController.RecordChunkUpload | backend/src/domains/files/files.controller.ts:295-330 | `recordChunkUpload` answers and leaves the collaborators as `RecordChunkSpec` says |
| Reconciler.TryParseJson | backend/src/shared/utils/sqs.util.ts:21-30 | an absent or empty body and malformed JSON read as null; otherwise the parsed value |
| Reconciler.ExtractS3Records | backend/src/shared/utils/sqs.util.ts:32-75 | an S3 test event yields no records, whatever else it carries; any other body yields the records of its envelope shape |
| Reconciler.DecodeS3Key | backend/src/shared/utils/sqs.util.ts:77-89 | a key whose escapes are malformed once `+` is read as a space is returned as it came |
| Reconciler.SizeFieldOf | backend/src/shared/utils/sqs.util.ts:163 | exactly a falsy size leaves the column alone; the size is NaN exactly when `parseInt(String(size))`, with no radix, finds no digits; otherwise what is written is that parse |
| Reconciler.SizeFieldOfNumber | backend/src/shared/utils/sqs.util.ts:163 | a numeric size of 0 leaves the column alone; any other is written as it is below 1e21 in magnitude, and as its signed leading digit from there on |
| Reconciler.SizeFieldOfHexText | backend/src/shared/utils/sqs.util.ts:163 | a size given as text with "0x" or "0X" after its sign is written as its hexadecimal value |
| Reconciler.SizeFieldOfHexExample | backend/src/shared/utils/sqs.util.ts:163 | the text "0x10" sets the size 16 |
| Reconciler.LookupAndUpdate | backend/src/shared/utils/sqs.util.ts:150-183 | the lookup and update by key create and remove no row and touch no chunk |
| Reconciler.ProcessSpec | backend/src/shared/utils/sqs.util.ts:131-184 | processing a record creates and removes no row and touches no chunk |
| Reconciler.ProcessS3Record | backend/src/shared/utils/sqs.util.ts:131-184 | `processS3Record` moves the store as `ProcessSpec` says |
| Reconciler.LookUpAndUpdateRow | backend/src/shared/utils/sqs.util.ts:150-165 | the try block of `processS3Record` moves the store as `LookupAndUpdate` says |
| Reconciler.DirectRecordsFirst | backend/src/shared/utils/sqs.util.ts:42-44 | a top-level `Records` array wins over every other envelope shape and is returned as it is |
| Reconciler.SnsNotificationRecords | backend/src/shared/utils/sqs.util.ts:47-55 | an SNS notification whose message parses to an object with `Records` yields those records |
| Reconciler.EventBridgeRecordRead | backend/src/shared/utils/sqs.util.ts:58-72 | the synthetic EventBridge record has the bucket and key exactly where `processS3Record` reads them, and no size |
| Reconciler.EventBridgeSingleRecord | backend/src/shared/utils/sqs.util.ts:58-72 | an EventBridge body with a bucket name and a key yields exactly one record, for them |
| Reconciler.AtAppend | backend/src/shared/utils/sqs.util.ts:132-136 | following a path, then one more property, is following the longer path |
| Reconciler.NoShapeNoRecords | backend/src/shared/utils/sqs.util.ts:74 | a body with none of the record-bearing shapes yields no records |
| Reconciler.ReplacePlusWithoutPlus | backend/src/shared/utils/sqs.util.ts:79 | without a `+` the replacement changes nothing |
| Reconciler.ReplacePlusRemovesPlus | backend/src/shared/utils/sqs.util.ts:79 | after the replacement no `+` is left |
| Reconciler.PlainKeyUnchanged | backend/src/shared/utils/sqs.util.ts:77-89 | a key with neither `+` nor `%` decodes to itself |
| Reconciler.ReplacePlusOfFormEncode | backend/src/shared/utils/sqs.util.ts:79 | the replacement turns S3's form-encoding of a key into its percent-encoding |
| Reconciler.DecodeS3KeyOfFormEncode | backend/src/shared/utils/sqs.util.ts:77-89 | round trip: the key S3 reports for any object decodes to the object's key |
| Reconciler.ProcessWithoutKey | backend/src/shared/utils/sqs.util.ts:132-137 | a record without a key changes nothing and does not reach the store |
| Reconciler.ProcessUnknownKey | backend/src/shared/utils/sqs.util.ts:150-158 | a key no row has changes no row, and the lookup is the only call |
| Reconciler.ProcessRethrows | backend/src/shared/utils/sqs.util.ts:175-183 | a store failure in the lookup or the update is rethrown |
| Reconciler.ProcessUpdates | backend/src/shared/utils/sqs.util.ts:159-165 | on a healthy store (neither the lookup nor the update faults), when a row has the decoded key and the reported size is not NaN, that row gets the status, and the size when a truthy size parses; every other row is unchanged |
| Reconciler.ProcessIdempotent | backend/src/shared/utils/sqs.util.ts:131-184 | re-applying a record that was applied without error changes no row |
| PollingWorker.StartupSpec | backend/src/workers/sqs-polling.worker.ts:17-34 | the access test runs exactly when a queue URL is configured, and polling starts exactly when the test then passes |
| PollingWorker.RecordsSpec | backend/src/workers/sqs-polling.worker.ts:101-104 | the records of a message, processed in order, create and remove no row and touch no chunk |
| PollingWorker.MessageSpec | backend/src/workers/sqs-polling.worker.ts:54-118 | an unparseable or falsy body is deleted and changes nothing; no message creates or removes a row or touches a chunk |
| PollingWorker.BatchSpec | backend/src/workers/sqs-polling.worker.ts:54-118 | every message of a batch gets one acknowledgement, and no row is created or removed |
| PollingWorker.DeletedHandles | backend/src/workers/sqs-polling.worker.ts:64-107 | at most one receipt handle per message is passed to `deleteMessage` |
| PollingWorker.MessageQueue.constructor | backend/src/shared/utils/sqs.util.ts:115-129 | a queue from which nothing has been deleted |
| PollingWorker.MessageQueue.DeleteMessage | backend/src/shared/utils/sqs.util.ts:115-129 | `deleteMessage` logs the receipt handle and never throws |
| PollingWorker.HandleRecords | backend/src/workers/sqs-polling.worker.ts:101-104 | the record loop moves the store as `RecordsSpec` says |
| PollingWorker.HandleMessage | backend/src/workers/sqs-polling.worker.ts:54-118 | one message: acknowledged, store moved and handle deleted as `MessageSpec` says |
| PollingWorker.HandleBatch | backend/src/workers/sqs-polling.worker.ts:54-118 | the message loop, as `BatchSpec` says |
| PollingWorker.HandleNext | backend/src/workers/sqs-polling.worker.ts:54-118 | one turn of the message loop handles the next message after the earlier ones |
| PollingWorker.BatchSnoc | backend/src/workers/sqs-polling.worker.ts:54-118 | the batch up to message `i` is the batch before it, then message `i` |
| PollingWorker.PollOnce | backend/src/workers/sqs-polling.worker.ts:37-118 | no messages means nothing happens; otherwise the batch is handled as `BatchSpec` says |
| PollingWorker.RecordsAppend | backend/src/workers/sqs-polling.worker.ts:101-104 | processing `a + b` is processing `a`, then `b` when no record of `a` threw |
| PollingWorker.RecordsAllSucceed | backend/src/workers/sqs-polling.worker.ts:101-104 | the records all go through exactly when each returns without throwing on the store the earlier ones left |
| PollingWorker.MessageDeletedIff | backend/src/workers/sqs-polling.worker.ts:54-118 | a message is deleted exactly when its body is unparseable, yields no records, or all its records go through; otherwise it stays to be redelivered |
| PollingWorker.MessageWithoutRecords | backend/src/workers/sqs-polling.worker.ts:76-94 | a message without records is deleted and changes nothing |
| PollingWorker.BatchAppend | backend/src/workers/sqs-polling.worker.ts:54-118 | handling `a + b` is handling `a`, then `b` from where `a` left the store: a kept message does not stop the batch |
| PollingWorker.BatchAckOfMessage | backend/src/workers/sqs-polling.worker.ts:54-118 | the i-th acknowledgement is what the i-th message alone gets from the store the earlier messages left |
| PollingWorker.DeletedHandlesOfAcks | backend/src/workers/sqs-polling.worker.ts:64-107 | with distinct handles, a message's handle is deleted exactly when it is acknowledged with Delete |
| PollingWorker.HandlesAmong | backend/src/workers/sqs-polling.worker.ts:64-107 | every deleted handle belongs to one of the messages |
| PollingWorker.ProcessWritesOnly | backend/src/shared/utils/sqs.util.ts:159-165 | one record changes at most the status and size of rows, and writes only the given status |
| PollingWorker.BatchWritesOnly | backend/src/workers/sqs-polling.worker.ts:54-118 | a batch creates and removes no row, touches no chunk, and changes a row only by the written status and reported size |
| QueueService.ServicePoll | backend/src/services/sqs-queue.service.ts:102-200 | one turn of the service's loop: nothing on no messages, otherwise `BatchSpec` with the status "complete" |
| QueueService.LookupUpToStatus | backend/src/services/sqs-queue.service.ts:202-255 | one key's lookup and update have the same outcome whatever status is written |
| QueueService.ProcessUpToStatus | backend/src/services/sqs-queue.service.ts:202-255 | a record has the same outcome whatever status is written, and the stores stay alike up to statuses |
| QueueService.RecordsUpToStatus | backend/src/services/sqs-queue.service.ts:175-177 | the records of a message have the same outcome whatever status is written |
| QueueService.MessageUpToStatus | backend/src/services/sqs-queue.service.ts:135-190 | a message is acknowledged alike whatever status is written |
| QueueService.BatchUpToStatus | backend/src/services/sqs-queue.service.ts:135-190 | a batch is acknowledged alike whatever status is written |
| QueueService.ServiceActsLikeWorker | backend/src/services/sqs-queue.service.ts:102-255 | from the same store, the service and the worker acknowledge every message alike and leave stores that differ only in statuses ("complete" against UPLOADED) |
| LegacyPoller.LegacyStep | backend/src/utils/poll-sqs-events.util.ts:113-144 | one record goes through exactly when its key is falsy or a string, store failures being swallowed; no row is created or removed |
| LegacyPoller.LegacyRecordsSpec | backend/src/utils/poll-sqs-events.util.ts:113-144 | the legacy record loop creates and removes no row and touches no chunk |
| LegacyPoller.LegacyMessageSpec | backend/src/utils/poll-sqs-events.util.ts:84-157 | one message creates and removes no row and touches no chunk (which messages stay is `LegacyKeptIff`) |
| LegacyPoller.LegacyBatchSpec | backend/src/utils/poll-sqs-events.util.ts:84-157 | every message of a batch gets one acknowledgement |
| LegacyPoller.LegacyHandleRecords | backend/src/utils/poll-sqs-events.util.ts:113-144 | the record loop, as `LegacyRecordsSpec` says |
| LegacyPoller.LegacyHandleMessage | backend/src/utils/poll-sqs-events.util.ts:84-157 | one message, as `LegacyMessageSpec` says |
| LegacyPoller.LegacyHandleBatch | backend/src/utils/poll-sqs-events.util.ts:84-157 | the message loop, as `LegacyBatchSpec` says |
| LegacyPoller.LegacyHandleNext | backend/src/utils/poll-sqs-events.util.ts:84-157 | one turn of the message loop |
| LegacyPoller.LegacyPoll | backend/src/utils/poll-sqs-events.util.ts:64-166 | one turn of the polling loop once the receive call answered |
| LegacyPoller.LegacyBatchAppend | backend/src/utils/poll-sqs-events.util.ts:84-157 | handling `a + b` is handling `a`, then `b` |
| LegacyPoller.LegacyRecordsOutcome | backend/src/utils/poll-sqs-events.util.ts:113-144 | store failures never keep a message: the records go through exactly when every key is falsy or a string |
| LegacyPoller.LegacyKeptIff | backend/src/utils/poll-sqs-events.util.ts:84-157 | a message stays in the queue exactly when its body is unparseable or some key is neither falsy nor a string |
| LegacyPoller.UnparseableBodies | backend/src/utils/poll-sqs-events.util.ts:91-96 | on an unparseable body the worker deletes the message and the legacy poller keeps it; neither touches the store |
| LegacyPoller.TestEventsWithRecords | backend/src/utils/poll-sqs-events.util.ts:25-53 | a test event that carries `Records` is ignored by the worker but processed by the legacy poller |
| LegacyPoller.StepAgrees | backend/src/utils/poll-sqs-events.util.ts:123-130 | with a healthy store and accepted sizes, the direct update leaves the same rows as the lookup then update |
| LegacyPoller.RecordsAgree | backend/src/utils/poll-sqs-events.util.ts:113-144 | with a healthy store and sizes it accepts, the legacy record loop and the service's agree on every row |
| LegacyPoller.MessageAgrees | backend/src/utils/poll-sqs-events.util.ts:84-157 | for a parseable message that is not a test event, with a healthy store and sizes it accepts, the legacy poller acknowledges it as the service does and leaves the same rows |
| LegacyPoller.LegacyRecordsWriteOnly | backend/src/utils/poll-sqs-events.util.ts:123-130 | the legacy poller changes a row only by giving it "complete" and the reported size |
| UploadClient.NewUploader | frontend/src/main.ts:9-14 | the uploader counts `ceil(size / chunkSize)` parts: the least count whose parts hold the file |
| UploadClient.Clamp | frontend/src/main.ts:17-21 | a `Blob.slice` position always lies within the blob |
| UploadClient.PartRange | frontend/src/main.ts:17-21 | part `p` is the bytes `[(p-1)*chunkSize, min(p*chunkSize, size))`: at most `chunkSize` long, exactly that long except the last, and never empty |
| UploadClient.JoinedPrefix | frontend/src/main.ts:17-21 | the first `n` parts together are the file's first `min(n*chunkSize, size)` bytes |
| UploadClient.PartsCoverFile | frontend/src/main.ts:17-21 | the parts `1..numParts` concatenated are the file, in order and without overlap |
| UploadClient.Network.constructor | frontend/src/main.ts:23-125 | a network that has sent nothing |
| UploadClient.Network.Fetch | frontend/src/main.ts:36-113 | `fetch` logs the request and returns the oracle's answer |
| UploadClient.Upload | frontend/src/main.ts:23-125 | `upload()` returns and sends what `UploadSpec` says |
| UploadClient.UploadParts | frontend/src/main.ts:58-95 | the parts loop returns, sends and collects what `PartsSpec` says |
| UploadClient.UploadPart | frontend/src/main.ts:59-94 | one turn of the parts loop keeps the loop's correspondence with `PartsSpec` |
| UploadClient.ReportPart | frontend/src/main.ts:78-93 | the report request after an ok PUT keeps the loop's correspondence with `PartsSpec`, and a rejected report ends the upload as `PartsSpec` says |
| UploadClient.Collected | frontend/src/main.ts:91-94 | the parts a loop collects number one per turn that got through |
| UploadClient.Issued | frontend/src/main.ts:62-89 | the requests a loop issues number two per turn that got through |
| UploadClient.PartsSpecSucceeds | frontend/src/main.ts:58-95 | a parts loop that runs to the end issues the requests of every part and collects one part per part number |
| UploadClient.IssuedAt | frontend/src/main.ts:62-89 | in a loop that got through, part `p + 1` is PUT and reported by the loop's requests `2(p - i)` and `2(p - i) + 1` |
| UploadClient.PartsNeverComplete | frontend/src/main.ts:58-95 | the parts loop never issues a completion request |
| UploadClient.FailedPartEndsUpload | frontend/src/main.ts:70-124 | a parts loop that does not go through ends the upload with `{success: false}`, and no completion is requested |
| UploadClient.CollectedAt | frontend/src/main.ts:72-94 | the j-th part collected carries the ETag of the answer to the j-th PUT and the number `i + j + 1` |
| UploadClient.UploadSuccess | frontend/src/main.ts:23-120 | a successful upload sent the get-urls request, the PUT and report of every part in ascending order, then the completion with the collected parts |
| UploadClient.CompletionParts | frontend/src/main.ts:91-113 | the completion's parts are numbered `1..count` in order, part `p` carrying the ETag of the answer to its PUT |
| UploadClient.ReportAcceptedIff | frontend/src/main.ts:72-89 | the backend accepts a part's report exactly when the PUT's answer carried a non-empty ETag |
| UploadClient.PartRequestsInOrder | frontend/src/main.ts:58-113 | in a successful upload, request `2p + 1` is the PUT of part `p + 1` to `urls[p]` and request `2p + 2` its report with that PUT's ETag; the completion comes last |
| UploadClient.BackendAgreesOnPartCount | frontend/src/main.ts:12-44 | below 1e21 bytes the backend reads back the size the client sent and, with the default part size, presigns as many URLs as the client PUTs; from 1e21 on it reads only the leading digit |
| AuthValidation.FieldOf | backend/src/domains/auth/auth.validation.ts:12-24 | a field is missing exactly when it is falsy or a blank string, and it throws exactly when truthy and not a string |
| AuthValidation.ValidateAuthBody | backend/src/domains/auth/auth.validation.ts:5-27 | `validateAuthBody` returns `Validation(user, mode)`, built push by push |
| AuthValidation.JoinEmptyIff | backend/src/domains/auth/auth.validation.ts:26 | joining non-empty names is empty exactly for no names |
| AuthValidation.MissingIff | backend/src/domains/auth/auth.validation.ts:10-24 | a name is reported exactly when it is a checked field and that field is missing |
| AuthValidation.ReportOrder | backend/src/domains/auth/auth.validation.ts:12-26 | the report names no field twice and follows the order email, name, password |
| AuthValidation.AcceptedIff | backend/src/domains/auth/auth.validation.ts:5-27 | the body passes (an empty report) exactly when it does not throw and every required field is a non-blank string |
| AuthValidation.BlankIsMissing | backend/src/domains/auth/auth.validation.ts:12-24 | a required field whose string is blank after trimming is reported |
| AuthValidation.SigninIgnoresName | backend/src/domains/auth/auth.validation.ts:16-20 | on sign-in the name is neither reported nor read: bodies that differ only in it validate alike |

## Left out

- `JSON.parse` is a parameter (`JsonParser`): the model assumes nothing about the JSON grammar, and a body that parses to `null` reads as a parse failure, as it does in the code.
- Numbers are integers: NaN, Infinity, fractional sizes and fractional part numbers are not values of the model. NaN appears only as `parseInt`'s "no digits" answer.
- Prisma's own validation is reduced to the checks that matter here: missing rows, taken unique keys and a NaN size. Type coercion and identifier validation are not modelled.
- The 32-bit range of the integer `size` column is not modelled: a size beyond it is not refused.
- Failures of the store, the cache, S3 and the network come from oracles indexed by call count. Their causes (timeouts, credentials, throttling) are outside the model.
- The session TTL is recorded as the number given to `SET ... EX`, but no clock runs and nothing expires. An expired session is modelled only as a key that is absent from the cache state.
- `backend/src/shared/utils/redis.util.ts` is not part of this model. The cache is modelled as the `GET`/`SET`/`DEL` semantics the controller relies on.
- The `while (true)` polling loops, the 20-second long poll, the 5-second backoff after a failed poll, and the start-up log of the legacy poller are left out. One turn of each loop is modelled from the point where the receive call has answered.
- Logging (`console.log` and `console.error`) is left out everywhere.
- `testQueueAccess` is the boolean it returns; the `GetQueueAttributes` call behind it is not modelled.
- Failures of the `deleteMessage` helper, which the worker and the queue service call, are swallowed by the helper. The legacy poller sends `DeleteMessageCommand` itself (backend/src/utils/poll-sqs-events.util.ts:104-109 and 146-151), so there a failed delete lands in that message's `catch` block. Either way the message stays in the queue for another delivery. The model's `DeleteMessage` never fails, so neither failure path is modelled.
- The controller imports `updateStatusFileMetadata` and `createChunk`, but the store file exports `recordUploadedMetadata` and `createPendingChunk`. The model binds the imported names to the exported operations with the same effect.
- The duplicated helpers of the queue service and the legacy poller (`tryParseJson`, `extractS3Records`, `decodeS3Key`) are modelled once, in `Reconciler`. The one difference used is the legacy poller's missing test-event branch.
- The `uuidv4()` file id of the client is a parameter of `NewUploader`.
- UploadClient.NewUploader: requires a positive `chunkSize`, because the code divides by it. A zero or negative part size gives a NaN or negative part count, which the model does not represent.
- The client's check that its hard-coded `userId` is falsy can never fire, so it is left out.
- The client fetches `urls[i]` even when it is `undefined`. Such a request goes to the oracle like any other, so the model does not single it out.
- `res.headers.get("etag") || res.headers.get("ETag")` is modelled as one header value, because header lookup is case-insensitive.
- A failed completion leaves the file's status as it was. The intended behaviour is to mark it `FAILED`. The model follows the code.
- A duplicate chunk answers 500 and deletes the file's record and chunks. The intended answer is 409 Conflict. The model follows the code.
- FileController.RecordChunkSpec: after a failed chunk insert the code starts `deleteFileMetadata(file_id)` and `deleteChunks(file_id)` without awaiting them (backend/src/domains/files/files.controller.ts:316-317). They run concurrently and in no fixed order, and `deleteFileMetadata` rethrows when the record is absent, which becomes an unhandled promise rejection. The model runs the two deletions one after the other, record first, and drops their failures.
- The controller calls `uploader.generatePreSignedUrls(i, uploadId)` (backend/src/domains/files/files.controller.ts:152), but `S3Uploader` defines that method as `generateUploadUrls` (backend/src/shared/services/s3.service.ts:88). The model binds the call to `generateUploadUrls`, as `StorageGateway.GeneratePresignedUrl`. As written, the name resolves to no method.
- The polling worker imports `testQueueAccess`, `extractS3Records`, `tryParseJson`, `deleteMessage` and `processS3Record` from `../utils/sqs.util.js` (backend/src/workers/sqs-polling.worker.ts:4-11). That path is backend/src/utils/sqs.util.ts, which exports only the `sqs` client. The model binds these names to the helpers of backend/src/shared/utils/sqs.util.ts, which define them.
- The queue service and the legacy poller update `prisma.metadata` with the status `"complete"`, through `../utils/prisma.util.js` (backend/src/services/sqs-queue.service.ts:221-236, backend/src/utils/poll-sqs-events.util.ts:124-130). That client's schema is not part of this model. The model writes the `fileMetadata` table of backend/src/shared/utils/prisma.util.ts instead, and adds `COMPLETE` to `FileStatus` for their status. `ServiceActsLikeWorker` and `MessageAgrees` rely on this binding.
- UploadClient.Element: the property name for index `i` is spelled in decimal, which is `String(i)` only below 1e21. A part index never comes near that bound.
- Strings are sequences of Unicode scalar values, while JavaScript strings are sequences of UTF-16 code units. A lone surrogate cannot be represented, and `urls[i]` on a string value (`UploadClient.Element`) indexes characters, not code units.
- A number is an integer of any size. Above 2^53 a JavaScript number is a double, and `String` writes only the shortest digits that round back to it, padded with zeros. The model writes the integer's exact digits. `parseInt` reads both spellings back as the same value below 1e21, and as the same leading digit from there on.
- `chunk_index` is only checked to be a number `>= 0`, not an integer below the part count. The model follows the code, and `RecordChunkRejectsEarly` states the check as written.
- The use of `validateAuthBody` by the auth controller (a 400 when the report is non-empty) is not modelled, because the auth controller is not part of the core.
- AuthValidation.ValidateAuthBody: a truthy field that is not a string makes `trim` throw a `TypeError`. The model returns `None` for that case and does not carry the error message.
- Concurrency between requests, between pollers and between the client and the S3 event flow is not modelled: every operation runs alone from a given state.
