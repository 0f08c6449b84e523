/**
 * `fileController` of `backend/src/domains/files/files.controller.ts`: the three HTTP handlers
 * of a multipart upload (get the part URLs, record one uploaded chunk, complete the upload)
 * over the record store, the session cache and the object store.
 *
 * Each handler is a method of `FileController` proved against a function of the same name
 * ending in `Spec` that maps the collaborators' state before the request (a `World`) to the
 * response and the state after it; the properties of the handlers are lemmas about those
 * functions. A thrown exception is the branch that leads to the handler's `catch` block.
 */
module FileController {
  import opened Wrappers
  import opened Js
  import opened Store
  import opened SessionStore
  import opened Storage

  const CHUNK_SIZE: int := 5 * 1024 * 1024
  const MAX_FILE_SIZE: int := 1 * 1024 * 1024 * 1024
  const REDIS_TTL: int := 24 * 60 * 60

  const MISSING_FIELDS := "Missing or invalid required fields"
  const INVALID_SIZE := "Invalid file size"
  const SIZE_TOO_LARGE := "File size exceeds maximum allowed size of 1GB"
  const PRESIGN_ERROR := "Error generating S3 presigned URLs"
  const SESSION_NOT_FOUND := "Upload session not found or expired"
  const ETAGS_FAILED := "Failed to complete upload: ETags comparison failed"
  const COMPLETE_ERROR := "Error while completing upload"
  const CHUNK_ERROR := "Error recording chunk upload"

  /** The JSON responses: `{success: false, error}` with a status, or one of the 200 bodies. */
  datatype Response =
    | Failure(status: int, error: string)
    | Urls(presignedUrls: seq<string>, uploadId: string)
    | Completed
    | Recorded

  function StatusOf(r: Response): int {
    if r.Failure? then r.status else 200
  }

  /** The state of the three collaborators. */
  datatype World = World(db: DbState, cache: CacheState, log: seq<StorageCall>)

  /** What is fixed for the life of the process: the collaborators' failure oracles and the
      configured bucket. */
  datatype Env = Env(dbFault: nat -> bool, cacheFault: nat -> bool, reply: nat -> Reply, bucket: string)

  // ---------------------------------------------------------------------------------------
  // Request validation

  predicate ValidGetUrlsRequest(body: Value) {
    && Truthy(Get(body, "file_id"))
    && Truthy(Get(body, "file_name"))
    && Truthy(Get(body, "file_type"))
    && Truthy(Get(body, "file_size"))
    && Truthy(Get(body, "user_id"))
    && Truthy(Get(body, "s3_key"))
  }

  predicate ValidCompleteUploadRequest(body: Value) {
    && Truthy(Get(body, "uploadId"))
    && Get(body, "parts").Arr?
    && |Get(body, "parts").items| > 0
    && Truthy(Get(body, "fileId"))
  }

  predicate ValidRecordChunkRequest(body: Value) {
    && Truthy(Get(body, "file_id"))
    && Get(body, "chunk_index").Num?
    && Get(body, "chunk_index").n >= 0
    && Truthy(Get(body, "size"))
    && Truthy(Get(body, "s3_key"))
    && Truthy(Get(body, "etag"))
  }

  /** `parseInt(file_size, 10)`. */
  function FileSizeOf(body: Value): Option<int> {
    ParseInt(ToStr(Get(body, "file_size")))
  }

  /** The size checks of getUrls: a number, positive, at most 1 GiB. */
  predicate SizeAccepted(body: Value) {
    FileSizeOf(body).Some? && 0 < FileSizeOf(body).value <= MAX_FILE_SIZE
  }

  /** A `file_size` sent as a number, or as the text `String` makes of it, is read back as that
      number below 1e21; from there on `String` writes it in exponent notation, `parseInt` reads
      only its leading digit, and the size check accepts it. */
  lemma FileSizeOfNumber(body: Value, n: int)
    requires Get(body, "file_size") == Num(n) || Get(body, "file_size") == Str(NumberToString(n))
    ensures -EXPONENT_THRESHOLD < n < EXPONENT_THRESHOLD ==> FileSizeOf(body) == Some(n)
    ensures n >= EXPONENT_THRESHOLD ==> FileSizeOf(body) == Some(LeadingDigit(n)) && SizeAccepted(body)
  {
    ParseIntOfNumber(n, []);
    assert NumberToString(n) + [] == NumberToString(n);
  }

  // ---------------------------------------------------------------------------------------
  // cleanupFailedUpload

  /** Delete the record, delete its chunks, then, when an upload id was obtained, abort the
      upload and drop its binding. The four steps share one `try`, so the first failure ends
      the cleanup; nothing is reported to the caller. */
  function CleanupSpec(env: Env, w: World, u: Uploader, fileId: Value, uploadId: Option<string>): World {
    var (ok1, d1) := Run(env.dbFault, w.db, DeleteFileArgs(w.db.tables, fileId));
    if !ok1 then w.(db := d1)
    else
      var (ok2, d2) := Run(env.dbFault, d1, DeleteChunksArgs(d1.tables, fileId));
      if !ok2 || uploadId.None? then w.(db := d2)
      else
        var log1 := w.log + [Abort(ToStr(u.bucket), ToStr(u.key), uploadId.value)];
        if env.reply(|w.log|).Threw? then World(d2, w.cache, log1)
        else World(d2, DelSpec(env.cacheFault, w.cache, uploadId.value).1, log1)
  }

  // ---------------------------------------------------------------------------------------
  // getUrls

  /** The part-URL loop from part `i` on, with `urls` collected so far: `None` as soon as one
      part's URL cannot be had (the loop throws), else every URL in part order. */
  function PartUrls(reply: nat -> Reply, u: Uploader, uploadId: string, log: seq<StorageCall>,
                    i: int, n: int, urls: seq<string>): (Option<seq<string>>, seq<StorageCall>)
    decreases n - i + 1
  {
    if i > n then (Some(urls), log)
    else
      var r := reply(|log|);
      var log1 := log + [PartUrl(ToStr(u.bucket), ToStr(u.key), i, uploadId)];
      if !UrlOk(r) then (None, log1)
      else PartUrls(reply, u, uploadId, log1, i + 1, n, urls + [r.value])
  }

  /** The URLs answered to `count` consecutive calls from call number `from` on. */
  function Answers(reply: nat -> Reply, from: nat, count: nat): (urls: seq<string>)
    ensures |urls| == count
    ensures forall k :: 0 <= k < count ==> urls[k] == UrlOf(reply(from + k))
    decreases count
  {
    if count == 0 then [] else [UrlOf(reply(from))] + Answers(reply, from + 1, count - 1)
  }

  /** How many of `count` consecutive calls from call number `from` on yield a URL before the
      first one that does not (`count` when all do). */
  function FirstFailure(reply: nat -> Reply, from: nat, count: nat): (k: nat)
    ensures k <= count
    ensures forall q :: from <= q < from + k ==> UrlOk(reply(q))
    ensures k < count ==> !UrlOk(reply(from + k))
    decreases count
  {
    if count == 0 || !UrlOk(reply(from)) then 0 else 1 + FirstFailure(reply, from + 1, count - 1)
  }

  /** The presign calls for parts `from` to `to`, in that order. */
  function PartUrlCalls(bucket: string, key: string, uploadId: string, from: int, to: int): (calls: seq<StorageCall>)
    ensures |calls| == (if from <= to then to - from + 1 else 0)
    ensures forall q :: 0 <= q < |calls| ==> calls[q] == PartUrl(bucket, key, from + q, uploadId)
    decreases if from <= to then to - from + 1 else 0
  {
    if from > to then [] else [PartUrl(bucket, key, from, uploadId)] + PartUrlCalls(bucket, key, uploadId, from + 1, to)
  }

  function UploaderFor(env: Env, body: Value): Uploader {
    Uploader(Str(env.bucket), Get(body, "s3_key"))
  }

  function GetUrlsSpec(env: Env, w: World, body: Value): (Response, World) {
    if !ValidGetUrlsRequest(body) then (Failure(400, MISSING_FIELDS), w)
    else if FileSizeOf(body).None? || FileSizeOf(body).value <= 0 then (Failure(400, INVALID_SIZE), w)
    else if FileSizeOf(body).value > MAX_FILE_SIZE then (Failure(400, SIZE_TOO_LARGE), w)
    else
      var fileId := Get(body, "file_id");
      var u := UploaderFor(env, body);
      var init := env.reply(|w.log|);
      var w1 := w.(log := w.log + [Init(ToStr(u.bucket), ToStr(u.key))]);
      if !InitOk(init) then (Failure(500, PRESIGN_ERROR), CleanupSpec(env, w1, u, fileId, None))
      else
        GetUrlsAfterInit(env, w1, body, init.value, CeilDiv(FileSizeOf(body).value, CHUNK_SIZE))
  }

  /** getUrls once the upload id is known: the URLs, then the session binding and the record. */
  function GetUrlsAfterInit(env: Env, w1: World, body: Value, uploadId: string, numParts: int): (Response, World) {
    var u := UploaderFor(env, body);
    var (urls, log2) := PartUrls(env.reply, u, uploadId, w1.log, 1, numParts, []);
    var w2 := w1.(log := log2);
    if urls.None? || |urls.value| != numParts then
      (Failure(500, PRESIGN_ERROR), CleanupSpec(env, w2, u, Get(body, "file_id"), Some(uploadId)))
    else BindAndRecord(env, w2, body, uploadId, urls.value)
  }

  /** The last two steps of getUrls: bind the session in the cache, then create the record. */
  function BindAndRecord(env: Env, w2: World, body: Value, uploadId: string, urls: seq<string>): (Response, World) {
    var fileId := Get(body, "file_id");
    var u := UploaderFor(env, body);
    var (okSet, c3) := SetSpec(env.cacheFault, w2.cache, uploadId, Session(u.bucket, u.key, REDIS_TTL));
    var w3 := w2.(cache := c3);
    if !okSet then (Failure(500, PRESIGN_ERROR), CleanupSpec(env, w3, u, fileId, Some(uploadId)))
    else
      var (okCreate, d4) := Run(env.dbFault, w3.db, NewRecord(w3.db.tables, body));
      var w4 := w3.(db := d4);
      if !okCreate then (Failure(500, PRESIGN_ERROR), CleanupSpec(env, w4, u, fileId, Some(uploadId)))
      else (Urls(urls, uploadId), w4)
  }

  /** `createFileMetadata(file_id, file_name, file_type, file_size, s3_key, user_id)`. */
  function NewRecord(t: Tables, body: Value): Option<Tables> {
    CreateFileArgs(t, Get(body, "file_id"), Get(body, "file_name"), Get(body, "file_type"),
                   Get(body, "file_size"), Get(body, "s3_key"), Get(body, "user_id"))
  }

  // ---------------------------------------------------------------------------------------
  // completeUpload

  /** The `catch` block of completeUpload: look the session up again, abort the upload when it is
      still bound, drop the binding; any failure there ends the cleanup. Always a 500. */
  function CompletionFailed(env: Env, w: World, uploadId: Value): (Response, World) {
    var key := ToStr(uploadId);
    var (okGet, found, c1) := GetSpec(env.cacheFault, w.cache, key);
    var w1 := w.(cache := c1);
    if !okGet then (Failure(500, COMPLETE_ERROR), w1)
    else if found.Some? then
      var u := Uploader(found.value.bucket, found.value.key);
      var w2 := w1.(log := w1.log + [Abort(ToStr(u.bucket), ToStr(u.key), key)]);
      if env.reply(|w1.log|).Threw? then (Failure(500, COMPLETE_ERROR), w2)
      else (Failure(500, COMPLETE_ERROR), w2.(cache := DelSpec(env.cacheFault, w2.cache, key).1))
    else (Failure(500, COMPLETE_ERROR), w1.(cache := DelSpec(env.cacheFault, w1.cache, key).1))
  }

  function CompleteUploadSpec(env: Env, w: World, body: Value): (Response, World) {
    if !ValidCompleteUploadRequest(body) then (Failure(400, MISSING_FIELDS), w)
    else
      var uploadId := Get(body, "uploadId");
      var key := ToStr(uploadId);
      var (okGet, found, c1) := GetSpec(env.cacheFault, w.cache, key);
      var w1 := w.(cache := c1);
      if !okGet then CompletionFailed(env, w1, uploadId)
      else if found.None? then (Failure(404, SESSION_NOT_FOUND), w1)
      else
        var parts := PartRefs(Get(body, "parts").items);
        if parts.None? then CompletionFailed(env, w1, uploadId)
        else
          var u := Uploader(found.value.bucket, found.value.key);
          var r := env.reply(|w1.log|);
          var w2 := w1.(log := w1.log + [Complete(ToStr(u.bucket), ToStr(u.key), key, parts.value)]);
          if r.Threw? then CompletionFailed(env, w2, uploadId)
          else if !r.ok then CompletionRejected(env, w2, u, uploadId)
          else CompletionAccepted(env, w2, uploadId, Get(body, "fileId"))
  }

  /** The storage service answered without success: abort, drop the binding, 400. */
  function CompletionRejected(env: Env, w2: World, u: Uploader, uploadId: Value): (Response, World) {
    var key := ToStr(uploadId);
    var w3 := w2.(log := w2.log + [Abort(ToStr(u.bucket), ToStr(u.key), key)]);
    if env.reply(|w2.log|).Threw? then CompletionFailed(env, w3, uploadId)
    else
      var (okDel, c4) := DelSpec(env.cacheFault, w3.cache, key);
      var w4 := w3.(cache := c4);
      if !okDel then CompletionFailed(env, w4, uploadId) else (Failure(400, ETAGS_FAILED), w4)
  }

  /** The upload is complete in storage: mark the record UPLOADED, drop the binding, 200. */
  function CompletionAccepted(env: Env, w2: World, uploadId: Value, fileId: Value): (Response, World) {
    var key := ToStr(uploadId);
    var (okUp, d3) := Run(env.dbFault, w2.db, SetFileStatusArgs(w2.db.tables, fileId, FileStatus.UPLOADED));
    var w3 := w2.(db := d3);
    if !okUp then CompletionFailed(env, w3, uploadId)
    else
      var (okDel, c4) := DelSpec(env.cacheFault, w3.cache, key);
      var w4 := w3.(cache := c4);
      if !okDel then CompletionFailed(env, w4, uploadId) else (Completed, w4)
  }

  // ---------------------------------------------------------------------------------------
  // recordChunkUpload

  function RecordChunkSpec(env: Env, w: World, body: Value): (Response, World) {
    if !ValidRecordChunkRequest(body) then (Failure(400, MISSING_FIELDS), w)
    else
      var fileId := Get(body, "file_id");
      var (ok, d1) := Run(env.dbFault, w.db,
        CreateChunkArgs(w.db.tables, fileId, Get(body, "chunk_index"), ParseInt(ToStr(Get(body, "size"))),
                        Get(body, "s3_key"), Get(body, "etag")));
      if ok then (Recorded, w.(db := d1))
      else
        // the two deletes are issued without waiting for them; their failures are not observed
        var d2 := Run(env.dbFault, d1, DeleteFileArgs(d1.tables, fileId)).1;
        var d3 := Run(env.dbFault, d2, DeleteChunksArgs(d2.tables, fileId)).1;
        (Failure(500, CHUNK_ERROR), w.(db := d3))
  }

  // ---------------------------------------------------------------------------------------
  // Properties of getUrls

  /** The part-URL loop from part `i` succeeds exactly when every one of its calls, for parts
      i..n, yields a URL. */
  lemma {:induction false} PartUrlsSucceeds(reply: nat -> Reply, u: Uploader, id: string, log: seq<StorageCall>,
                                            i: int, n: int, urls: seq<string>)
    requires i <= n + 1
    ensures PartUrls(reply, u, id, log, i, n, urls).0.Some? <==>
            forall q :: |log| <= q < |log| + n - i + 1 ==> UrlOk(reply(q))
    decreases n - i + 1
  {
    if i <= n {
      var log1 := log + [PartUrl(ToStr(u.bucket), ToStr(u.key), i, id)];
      if UrlOk(reply(|log|)) {
        PartUrlsSucceeds(reply, u, id, log1, i + 1, n, urls + [reply(|log|).value]);
      }
    }
  }

  /** The URLs the loop returns: those collected before, then the answers to its calls. */
  lemma {:induction false} PartUrlsCollected(reply: nat -> Reply, u: Uploader, id: string, log: seq<StorageCall>,
                                             i: int, n: int, urls: seq<string>)
    requires i <= n + 1
    ensures var r := PartUrls(reply, u, id, log, i, n, urls).0;
      r.Some? ==> r.value == urls + Answers(reply, |log|, n - i + 1)
    decreases n - i + 1
  {
    if i <= n {
      var log1 := log + [PartUrl(ToStr(u.bucket), ToStr(u.key), i, id)];
      if UrlOk(reply(|log|)) {
        var urls1 := urls + [reply(|log|).value];
        PartUrlsCollected(reply, u, id, log1, i + 1, n, urls1);
        assert Answers(reply, |log|, n - i + 1) == [UrlOf(reply(|log|))] + Answers(reply, |log| + 1, n - i);
        assert urls1 + Answers(reply, |log| + 1, n - i) == urls + Answers(reply, |log|, n - i + 1);
      }
    } else {
      assert urls + Answers(reply, |log|, 0) == urls;
    }
  }

  lemma PartUrlCallsCons(log: seq<StorageCall>, bucket: string, key: string, uploadId: string, i: int, last: int)
    requires i <= last
    ensures log + [PartUrl(bucket, key, i, uploadId)] + PartUrlCalls(bucket, key, uploadId, i + 1, last)
         == log + PartUrlCalls(bucket, key, uploadId, i, last)
  {
    assert PartUrlCalls(bucket, key, uploadId, i, last)
        == [PartUrl(bucket, key, i, uploadId)] + PartUrlCalls(bucket, key, uploadId, i + 1, last);
  }

  /** The calls the loop makes: one presign call per part in order, for every part when all URLs
      are had, else up to and including the first part whose URL cannot be had. */
  lemma {:induction false} PartUrlsCalls(reply: nat -> Reply, u: Uploader, id: string, log: seq<StorageCall>,
                                         i: int, n: int, urls: seq<string>)
    requires i <= n + 1
    ensures var r := PartUrls(reply, u, id, log, i, n, urls);
      var k := FirstFailure(reply, |log|, n - i + 1);
      && (r.0.Some? <==> k == n - i + 1)
      && r.1 == log + PartUrlCalls(ToStr(u.bucket), ToStr(u.key), id, i, if r.0.Some? then n else i + k)
    decreases n - i + 1
  {
    var B, K := ToStr(u.bucket), ToStr(u.key);
    if i <= n {
      var rr := reply(|log|);
      var log1 := log + [PartUrl(B, K, i, id)];
      if UrlOk(rr) {
        PartUrlsCalls(reply, u, id, log1, i + 1, n, urls + [rr.value]);
        var r := PartUrls(reply, u, id, log1, i + 1, n, urls + [rr.value]);
        var k1 := FirstFailure(reply, |log1|, n - i);
        assert FirstFailure(reply, |log|, n - i + 1) == 1 + k1;
        var last := if r.0.Some? then n else i + 1 + k1;
        PartUrlCallsCons(log, B, K, id, i, last);
      } else {
        assert PartUrlCalls(B, K, id, i, i) == [PartUrl(B, K, i, id)];
      }
    } else {
      assert log + PartUrlCalls(B, K, id, i, n) == log;
    }
  }

  /** getUrls answers 400, before any call to a collaborator, exactly when a field is missing or
      the size is not a positive number of at most 1 GiB. */
  lemma GetUrlsRejectsEarly(env: Env, w: World, body: Value)
    ensures var r := GetUrlsSpec(env, w, body);
      && (StatusOf(r.0) == 400 <==> !ValidGetUrlsRequest(body) || !SizeAccepted(body))
      && (StatusOf(r.0) == 400 ==> r.1 == w)
  {
    if ValidGetUrlsRequest(body) && SizeAccepted(body) {
      var u := UploaderFor(env, body);
      var w1 := w.(log := w.log + [Init(ToStr(u.bucket), ToStr(u.key))]);
      if InitOk(env.reply(|w.log|)) {
        var r := GetUrlsAfterInit(env, w1, body, env.reply(|w.log|).value, CeilDiv(FileSizeOf(body).value, CHUNK_SIZE));
        assert r.0.Urls? || r.0 == Failure(500, PRESIGN_ERROR);
      }
    }
  }

  /** The last two steps succeeded: the session is bound for 24 hours and the record exists in
      status UPLOADING; no chunk and no storage call changes. */
  lemma BindAndRecordSuccess(env: Env, w2: World, body: Value, uploadId: string, urls: seq<string>)
    requires BindAndRecord(env, w2, body, uploadId, urls).0.Urls?
    ensures var (res, w4) := BindAndRecord(env, w2, body, uploadId, urls);
      var s3Key := Get(body, "s3_key");
      var fileId := Get(body, "file_id");
      && res == Urls(urls, uploadId)
      && w4.log == w2.log
      && w4.cache.entries == w2.cache.entries[uploadId := Session(Str(env.bucket), s3Key, REDIS_TTL)]
      && fileId.Str? && s3Key.Str? && FileSizeOf(body).Some?
      && w4.db.tables.chunks == w2.db.tables.chunks
      && w4.db.tables.files == w2.db.tables.files[fileId.s :=
           FileRecord(fileId.s, Get(body, "file_name").s, Get(body, "file_type").s,
                      FileSizeOf(body), s3Key.s, FileStatus.UPLOADING, Get(body, "user_id").s)]
  {
    var c3 := SetSpec(env.cacheFault, w2.cache, uploadId, Session(Str(env.bucket), Get(body, "s3_key"), REDIS_TTL)).1;
    var w3 := w2.(cache := c3);
    var next := NewRecord(w3.db.tables, body);
    assert next.Some?;
  }

  /** getUrls after a successful init: one presign call per part, parts 1 to numParts in order,
      the i-th URL being the one obtained for part i, then the binding and the record. */
  lemma GetUrlsAfterInitSuccess(env: Env, w1: World, body: Value, uploadId: string, numParts: int)
    requires numParts >= 0 && GetUrlsAfterInit(env, w1, body, uploadId, numParts).0.Urls?
    ensures var r := GetUrlsAfterInit(env, w1, body, uploadId, numParts);
      && r.0.uploadId == uploadId
      && |r.0.presignedUrls| == numParts
      && (forall q :: |w1.log| <= q < |w1.log| + numParts ==> UrlOk(env.reply(q)))
      && r.0.presignedUrls == Answers(env.reply, |w1.log|, numParts)
      && r.1.log == w1.log + PartUrlCalls(env.bucket, ToStr(Get(body, "s3_key")), uploadId, 1, numParts)
      && r.1.cache.entries == w1.cache.entries[uploadId := Session(Str(env.bucket), Get(body, "s3_key"), REDIS_TTL)]
      && Get(body, "file_id").Str? && Get(body, "s3_key").Str?
      && r.1.db.tables.chunks == w1.db.tables.chunks
      && r.1.db.tables.files == w1.db.tables.files[Get(body, "file_id").s :=
           FileRecord(Get(body, "file_id").s, Get(body, "file_name").s, Get(body, "file_type").s,
                      FileSizeOf(body), Get(body, "s3_key").s, FileStatus.UPLOADING, Get(body, "user_id").s)]
  {
    var u := UploaderFor(env, body);
    var r := PartUrls(env.reply, u, uploadId, w1.log, 1, numParts, []);
    var w2 := w1.(log := r.1);
    assert r.0.Some? && |r.0.value| == numParts;
    assert GetUrlsAfterInit(env, w1, body, uploadId, numParts) == BindAndRecord(env, w2, body, uploadId, r.0.value);
    PartUrlsCalls(env.reply, u, uploadId, w1.log, 1, numParts, []);
    PartUrlsCollected(env.reply, u, uploadId, w1.log, 1, numParts, []);
    PartUrlsSucceeds(env.reply, u, uploadId, w1.log, 1, numParts, []);
    assert [] + Answers(env.reply, |w1.log|, numParts) == Answers(env.reply, |w1.log|, numParts);
    BindAndRecordSuccess(env, w2, body, uploadId, r.0.value);
  }

  /** A successful getUrls: one init call then one presign call per part, parts 1 to
      ceil(size / 5 MiB) in order; the i-th URL returned is the one obtained for part i; the
      session is bound in the cache for 24 hours; a record in status UPLOADING exists. */
  lemma GetUrlsSuccess(env: Env, w: World, body: Value)
    requires GetUrlsSpec(env, w, body).0.Urls?
    ensures ValidGetUrlsRequest(body) && SizeAccepted(body)
    ensures var r := GetUrlsSpec(env, w, body);
      var n := CeilDiv(FileSizeOf(body).value, CHUNK_SIZE);
      var s3Key := Get(body, "s3_key");
      && InitOk(env.reply(|w.log|)) && r.0.uploadId == env.reply(|w.log|).value
      && |r.0.presignedUrls| == n
      && (forall q :: |w.log| < q <= |w.log| + n ==> UrlOk(env.reply(q)))
      && r.0.presignedUrls == Answers(env.reply, |w.log| + 1, n)
      && r.1.log == w.log + [Init(env.bucket, ToStr(s3Key))] + PartUrlCalls(env.bucket, ToStr(s3Key), r.0.uploadId, 1, n)
      && r.1.cache.entries == w.cache.entries[r.0.uploadId := Session(Str(env.bucket), s3Key, REDIS_TTL)]
      && Get(body, "file_id").Str? && s3Key.Str?
      && r.1.db.tables.chunks == w.db.tables.chunks
      && r.1.db.tables.files == w.db.tables.files[Get(body, "file_id").s :=
           FileRecord(Get(body, "file_id").s, Get(body, "file_name").s, Get(body, "file_type").s,
                      FileSizeOf(body), s3Key.s, FileStatus.UPLOADING, Get(body, "user_id").s)]
  {
    GetUrlsRejectsEarly(env, w, body);
    var u := UploaderFor(env, body);
    var w1 := w.(log := w.log + [Init(ToStr(u.bucket), ToStr(u.key))]);
    var uploadId := env.reply(|w.log|).value;
    var numParts := CeilDiv(FileSizeOf(body).value, CHUNK_SIZE);
    assert GetUrlsSpec(env, w, body) == GetUrlsAfterInit(env, w1, body, uploadId, numParts);
    GetUrlsAfterInitSuccess(env, w1, body, uploadId, numParts);
  }

  /** init failed: cleanup runs after the init call, with no upload id, and 500 is answered. */
  lemma GetUrlsInitFailure(env: Env, w: World, body: Value)
    requires ValidGetUrlsRequest(body) && SizeAccepted(body) && !InitOk(env.reply(|w.log|))
    ensures var u := UploaderFor(env, body);
      GetUrlsSpec(env, w, body) ==
        (Failure(500, PRESIGN_ERROR),
         CleanupSpec(env, w.(log := w.log + [Init(env.bucket, ToStr(Get(body, "s3_key")))]), u, Get(body, "file_id"), None))
  {
  }

  /** Init succeeded but the URL of some part could not be had: parts are asked for in order up
      to and including that first failing part, none after it; cleanup then runs with the upload
      id, and 500 is answered. */
  lemma GetUrlsPartFailure(env: Env, w: World, body: Value)
    requires ValidGetUrlsRequest(body) && SizeAccepted(body) && InitOk(env.reply(|w.log|))
    requires FirstFailure(env.reply, |w.log| + 1, CeilDiv(FileSizeOf(body).value, CHUNK_SIZE))
             < CeilDiv(FileSizeOf(body).value, CHUNK_SIZE)
    ensures var u := UploaderFor(env, body);
      var uploadId := env.reply(|w.log|).value;
      var s3Key := ToStr(Get(body, "s3_key"));
      var k := FirstFailure(env.reply, |w.log| + 1, CeilDiv(FileSizeOf(body).value, CHUNK_SIZE));
      GetUrlsSpec(env, w, body) ==
        (Failure(500, PRESIGN_ERROR),
         CleanupSpec(env, w.(log := w.log + [Init(env.bucket, s3Key)] + PartUrlCalls(env.bucket, s3Key, uploadId, 1, 1 + k)),
                     u, Get(body, "file_id"), Some(uploadId)))
  {
    var u := UploaderFor(env, body);
    var s3Key := ToStr(Get(body, "s3_key"));
    var w1 := w.(log := w.log + [Init(env.bucket, s3Key)]);
    var uploadId := env.reply(|w.log|).value;
    var numParts := CeilDiv(FileSizeOf(body).value, CHUNK_SIZE);
    assert GetUrlsSpec(env, w, body) == GetUrlsAfterInit(env, w1, body, uploadId, numParts);
    var k := FirstFailure(env.reply, |w1.log|, numParts);
    GetUrlsAfterInitFailure(env, w1, body, uploadId, numParts);
    assert w1.log + PartUrlCalls(env.bucket, s3Key, uploadId, 1, 1 + k)
        == w.log + [Init(env.bucket, s3Key)] + PartUrlCalls(env.bucket, s3Key, uploadId, 1, 1 + k);
  }

  lemma GetUrlsAfterInitFailure(env: Env, w1: World, body: Value, uploadId: string, numParts: int)
    requires numParts >= 0 && FirstFailure(env.reply, |w1.log|, numParts) < numParts
    ensures var k := FirstFailure(env.reply, |w1.log|, numParts);
      var s3Key := ToStr(Get(body, "s3_key"));
      GetUrlsAfterInit(env, w1, body, uploadId, numParts) ==
        (Failure(500, PRESIGN_ERROR),
         CleanupSpec(env, w1.(log := w1.log + PartUrlCalls(env.bucket, s3Key, uploadId, 1, 1 + k)),
                     UploaderFor(env, body), Get(body, "file_id"), Some(uploadId)))
  {
    var u := UploaderFor(env, body);
    PartUrlsCalls(env.reply, u, uploadId, w1.log, 1, numParts, []);
    var r := PartUrls(env.reply, u, uploadId, w1.log, 1, numParts, []);
    assert r.0.None?;
    assert r.1 == w1.log + PartUrlCalls(env.bucket, ToStr(Get(body, "s3_key")), uploadId, 1, 1 + FirstFailure(env.reply, |w1.log|, numParts));
  }

  /** The URL-count check after the loop never fires: the loop either throws or yields one URL
      per part. */
  lemma UrlCountCheckIsDead(reply: nat -> Reply, u: Uploader, id: string, log: seq<StorageCall>, n: int)
    requires n >= 0
    ensures var r := PartUrls(reply, u, id, log, 1, n, []);
      r.0.Some? ==> |r.0.value| == n
  {
    PartUrlsCollected(reply, u, id, log, 1, n, []);
  }

  // ---------------------------------------------------------------------------------------
  // Properties of cleanupFailedUpload

  /** Cleanup order: the record is deleted first, then its chunks; only when both succeeded and
      an upload id is known is the upload aborted, and only when the abort did not throw is the
      session binding dropped. */
  lemma CleanupOrder(env: Env, w: World, u: Uploader, fileId: Value, uploadId: Option<string>)
    ensures var w2 := CleanupSpec(env, w, u, fileId, uploadId);
      var recordDeleted := Run(env.dbFault, w.db, DeleteFileArgs(w.db.tables, fileId));
      var chunksDeleted := Run(env.dbFault, recordDeleted.1, DeleteChunksArgs(recordDeleted.1.tables, fileId));
      var aborts := recordDeleted.0 && chunksDeleted.0 && uploadId.Some?;
      && w2.db == (if recordDeleted.0 then chunksDeleted.1 else recordDeleted.1)
      && w2.log == (if aborts then w.log + [Abort(ToStr(u.bucket), ToStr(u.key), uploadId.value)] else w.log)
      && (aborts && !env.reply(|w.log|).Threw? ==> w2.cache == DelSpec(env.cacheFault, w.cache, uploadId.value).1)
      && (!(aborts && !env.reply(|w.log|).Threw?) ==> w2.cache == w.cache)
  {
  }

  /** When there is no record to delete (a string id with no row, or not a string at all), the
      first step throws and the cleanup stops there: no chunk is deleted, the upload is not
      aborted and the session binding stays. */
  lemma CleanupStopsWithoutRecord(env: Env, w: World, u: Uploader, fileId: Value, uploadId: Option<string>)
    requires !(fileId.Str? && fileId.s in w.db.tables.files)
    ensures var w2 := CleanupSpec(env, w, u, fileId, uploadId);
      w2.db.tables == w.db.tables && w2.cache == w.cache && w2.log == w.log
  {
  }

  predicate NoAbort(calls: seq<StorageCall>) {
    forall q :: 0 <= q < |calls| ==> !calls[q].Abort?
  }

  /** The cache after the last two steps of a failed getUrls for a new file: as before, except
      possibly the binding of this upload id. */
  predicate BindingAtMost(before: map<string, Session>, after: map<string, Session>, uploadId: string, s: Session) {
    after == before || after == before[uploadId := s]
  }

  lemma BindAndRecordFailureForNewFile(env: Env, w2: World, body: Value, uploadId: string, urls: seq<string>)
    requires !(Get(body, "file_id").Str? && Get(body, "file_id").s in w2.db.tables.files)
    requires !BindAndRecord(env, w2, body, uploadId, urls).0.Urls?
    ensures var w4 := BindAndRecord(env, w2, body, uploadId, urls).1;
      && w4.db.tables == w2.db.tables && w4.log == w2.log
      && BindingAtMost(w2.cache.entries, w4.cache.entries, uploadId, Session(Str(env.bucket), Get(body, "s3_key"), REDIS_TTL))
  {
    var u := UploaderFor(env, body);
    var fileId := Get(body, "file_id");
    var sess := Session(u.bucket, u.key, REDIS_TTL);
    var w3 := w2.(cache := SetSpec(env.cacheFault, w2.cache, uploadId, sess).1);
    if SetSpec(env.cacheFault, w2.cache, uploadId, sess).0 {
      var d4 := Run(env.dbFault, w3.db, NewRecord(w3.db.tables, body)).1;
      assert d4.tables == w2.db.tables;
      CleanupStopsWithoutRecord(env, w3.(db := d4), u, fileId, Some(uploadId));
    } else {
      CleanupStopsWithoutRecord(env, w3, u, fileId, Some(uploadId));
    }
  }

  /** The presign calls never abort anything. */
  lemma PartUrlCallsNoAbort(bucket: string, key: string, uploadId: string, from: int, to: int)
    ensures NoAbort(PartUrlCalls(bucket, key, uploadId, from, to))
  {
    var calls := PartUrlCalls(bucket, key, uploadId, from, to);
    forall q | 0 <= q < |calls| ensures !calls[q].Abort? {
      assert calls[q] == PartUrl(bucket, key, from + q, uploadId);
    }
  }

  lemma GetUrlsAfterInitFailureForNewFile(env: Env, w1: World, body: Value, uploadId: string, numParts: int)
    requires numParts >= 0
    requires !(Get(body, "file_id").Str? && Get(body, "file_id").s in w1.db.tables.files)
    requires !GetUrlsAfterInit(env, w1, body, uploadId, numParts).0.Urls?
    ensures var w4 := GetUrlsAfterInit(env, w1, body, uploadId, numParts).1;
      && w4.db.tables == w1.db.tables
      && (exists calls :: w4.log == w1.log + calls && NoAbort(calls))
      && BindingAtMost(w1.cache.entries, w4.cache.entries, uploadId, Session(Str(env.bucket), Get(body, "s3_key"), REDIS_TTL))
  {
    var u := UploaderFor(env, body);
    var fileId := Get(body, "file_id");
    PartUrlsCalls(env.reply, u, uploadId, w1.log, 1, numParts, []);
    var r := PartUrls(env.reply, u, uploadId, w1.log, 1, numParts, []);
    var last := if r.0.Some? then numParts else 1 + FirstFailure(env.reply, |w1.log|, numParts);
    var calls := PartUrlCalls(ToStr(u.bucket), ToStr(u.key), uploadId, 1, last);
    PartUrlCallsNoAbort(ToStr(u.bucket), ToStr(u.key), uploadId, 1, last);
    var w2 := w1.(log := r.1);
    assert w2.log == w1.log + calls;
    if r.0.None? || |r.0.value| != numParts {
      CleanupStopsWithoutRecord(env, w2, u, fileId, Some(uploadId));
    } else {
      assert GetUrlsAfterInit(env, w1, body, uploadId, numParts) == BindAndRecord(env, w2, body, uploadId, r.0.value);
      BindAndRecordFailureForNewFile(env, w2, body, uploadId, r.0.value);
    }
  }

  /** Consequence of the order above: when getUrls fails for a file id that had no record before
      the request, it never aborts the multipart upload it started; no record is left behind,
      and a session binding it wrote stays in the cache. */
  lemma GetUrlsFailureForNewFileNeverAborts(env: Env, w: World, body: Value)
    requires ValidGetUrlsRequest(body) && SizeAccepted(body)
    requires !(Get(body, "file_id").Str? && Get(body, "file_id").s in w.db.tables.files)
    requires !GetUrlsSpec(env, w, body).0.Urls?
    ensures var w2 := GetUrlsSpec(env, w, body).1;
      && w2.db.tables == w.db.tables
      && (exists calls :: w2.log == w.log + calls && NoAbort(calls))
      && (w2.cache.entries == w.cache.entries ||
          (InitOk(env.reply(|w.log|)) &&
           BindingAtMost(w.cache.entries, w2.cache.entries, env.reply(|w.log|).value,
                         Session(Str(env.bucket), Get(body, "s3_key"), REDIS_TTL))))
  {
    var u := UploaderFor(env, body);
    var fileId := Get(body, "file_id");
    var init := Init(ToStr(u.bucket), ToStr(u.key));
    var w1 := w.(log := w.log + [init]);
    assert NoAbort([init]);
    if InitOk(env.reply(|w.log|)) {
      var uploadId := env.reply(|w.log|).value;
      var numParts := CeilDiv(FileSizeOf(body).value, CHUNK_SIZE);
      assert GetUrlsSpec(env, w, body) == GetUrlsAfterInit(env, w1, body, uploadId, numParts);
      InitThenFailureNeverAborts(env, w, body, init, uploadId, numParts);
    } else {
      CleanupStopsWithoutRecord(env, w1, u, fileId, None);
    }
  }

  /** The same after a successful init, with the init call prepended to the calls that follow. */
  lemma InitThenFailureNeverAborts(env: Env, w: World, body: Value, init: StorageCall, uploadId: string, numParts: int)
    requires !init.Abort? && numParts >= 0
    requires !(Get(body, "file_id").Str? && Get(body, "file_id").s in w.db.tables.files)
    requires !GetUrlsAfterInit(env, w.(log := w.log + [init]), body, uploadId, numParts).0.Urls?
    ensures var w4 := GetUrlsAfterInit(env, w.(log := w.log + [init]), body, uploadId, numParts).1;
      && w4.db.tables == w.db.tables
      && (exists calls :: w4.log == w.log + calls && NoAbort(calls))
      && BindingAtMost(w.cache.entries, w4.cache.entries, uploadId, Session(Str(env.bucket), Get(body, "s3_key"), REDIS_TTL))
  {
    var w1 := w.(log := w.log + [init]);
    GetUrlsAfterInitFailureForNewFile(env, w1, body, uploadId, numParts);
    var w4 := GetUrlsAfterInit(env, w1, body, uploadId, numParts).1;
    var calls :| w4.log == w1.log + calls && NoAbort(calls);
    assert w4.log == w.log + ([init] + calls);
    assert NoAbort([init] + calls) by {
      forall q | 0 <= q < |[init] + calls| ensures !([init] + calls)[q].Abort? {
        if q > 0 { assert ([init] + calls)[q] == calls[q - 1]; }
      }
    }
  }

  // ---------------------------------------------------------------------------------------
  // Properties of completeUpload

  /** A validated request whose session is not in the cache answers 404 and changes no table,
      no binding and calls nothing in storage. */
  lemma CompleteUploadCacheMiss(env: Env, w: World, body: Value)
    requires ValidCompleteUploadRequest(body)
    requires !env.cacheFault(w.cache.calls) && ToStr(Get(body, "uploadId")) !in w.cache.entries
    ensures var (res, w2) := CompleteUploadSpec(env, w, body);
      && res == Failure(404, SESSION_NOT_FOUND)
      && w2.db == w.db && w2.cache.entries == w.cache.entries && w2.log == w.log
  {
  }

  /** Only a cache miss answers 404. */
  lemma CompleteUploadNotFoundOnlyOnMiss(env: Env, w: World, body: Value)
    ensures StatusOf(CompleteUploadSpec(env, w, body).0) == 404 <==>
      ValidCompleteUploadRequest(body) && !env.cacheFault(w.cache.calls) && ToStr(Get(body, "uploadId")) !in w.cache.entries
  {
    if ValidCompleteUploadRequest(body) && !env.cacheFault(w.cache.calls) && ToStr(Get(body, "uploadId")) in w.cache.entries {
      var uploadId := Get(body, "uploadId");
      var w1 := w.(cache := GetSpec(env.cacheFault, w.cache, ToStr(uploadId)).2);
      var parts := PartRefs(Get(body, "parts").items);
      if parts.Some? {
        var found := w.cache.entries[ToStr(uploadId)];
        var u := Uploader(found.bucket, found.key);
        var w2 := w1.(log := w1.log + [Complete(ToStr(u.bucket), ToStr(u.key), ToStr(uploadId), parts.value)]);
        var r := env.reply(|w1.log|);
        if r.Answered? && !r.ok {
          assert StatusOf(CompletionRejected(env, w2, u, uploadId).0) != 404;
        } else if r.Answered? {
          assert StatusOf(CompletionAccepted(env, w2, uploadId, Get(body, "fileId")).0) != 404;
        }
      }
    }
  }

  /** The storage service refused the completion: the upload is aborted right after the refused
      completion, the binding is dropped, 400 is answered, and the file status is not touched. */
  lemma CompleteUploadRejected(env: Env, w: World, body: Value)
    requires ValidCompleteUploadRequest(body)
    requires !env.cacheFault(w.cache.calls) && ToStr(Get(body, "uploadId")) in w.cache.entries
    requires PartRefs(Get(body, "parts").items).Some?
    requires env.reply(|w.log|).Answered? && !env.reply(|w.log|).ok
    requires !env.reply(|w.log| + 1).Threw? && !env.cacheFault(w.cache.calls + 1)
    ensures var (res, w2) := CompleteUploadSpec(env, w, body);
      var key := ToStr(Get(body, "uploadId"));
      var s := w.cache.entries[key];
      && res == Failure(400, ETAGS_FAILED)
      && w2.db == w.db
      && w2.log == w.log + [Complete(ToStr(s.bucket), ToStr(s.key), key, PartRefs(Get(body, "parts").items).value),
                            Abort(ToStr(s.bucket), ToStr(s.key), key)]
      && w2.cache.entries == w.cache.entries - {key}
  {
  }

  /** `S3Uploader.completeUpload` as written answers `success: true` or throws, so with a storage
      reply of that kind the refusal branch is dead: completeUpload answers 400 exactly for a
      request with a missing field, and a completion the storage service refuses ends in the
      catch block's 500. */
  lemma CompleteUploadBadRequestOnlyForFields(env: Env, w: World, body: Value)
    requires env.reply(|w.log|).Threw? || env.reply(|w.log|).ok
    ensures StatusOf(CompleteUploadSpec(env, w, body).0) == 400 <==> !ValidCompleteUploadRequest(body)
  {
    if ValidCompleteUploadRequest(body) {
      var uploadId := Get(body, "uploadId");
      var (okGet, found, c1) := GetSpec(env.cacheFault, w.cache, ToStr(uploadId));
      var w1 := w.(cache := c1);
      CompletionFailedStatus(env, w1, uploadId);
      var parts := PartRefs(Get(body, "parts").items);
      if okGet && found.Some? && parts.Some? {
        var u := Uploader(found.value.bucket, found.value.key);
        var w2 := w1.(log := w1.log + [Complete(ToStr(u.bucket), ToStr(u.key), ToStr(uploadId), parts.value)]);
        CompletionFailedStatus(env, w2, uploadId);
        CompletionAcceptedStatus(env, w2, uploadId, Get(body, "fileId"));
      }
    }
  }

  /** When completeUpload answers 200, the session was found, the storage service accepted the
      completion, the record was marked UPLOADED and the binding was dropped; the only row changed
      is that record's status and the only storage call is the completion. The converse is
      CompleteUploadSucceeds. */
  lemma CompleteUploadSuccess(env: Env, w: World, body: Value)
    requires CompleteUploadSpec(env, w, body).0 == Completed
    ensures ValidCompleteUploadRequest(body) && Get(body, "fileId").Str?
    ensures var (res, w2) := CompleteUploadSpec(env, w, body);
      var key := ToStr(Get(body, "uploadId"));
      var fileId := Get(body, "fileId").s;
      && key in w.cache.entries
      && env.reply(|w.log|).Answered? && env.reply(|w.log|).ok
      && fileId in w.db.tables.files
      && w2.db.tables == SetFileStatus(w.db.tables, fileId, FileStatus.UPLOADED).value
      && w2.db.tables.files[fileId].status == FileStatus.UPLOADED
      && w2.cache.entries == w.cache.entries - {key}
      && |w2.log| == |w.log| + 1 && w2.log[|w.log|].Complete? && w2.log[..|w.log|] == w.log
  {
    var uploadId := Get(body, "uploadId");
    var w1 := w.(cache := GetSpec(env.cacheFault, w.cache, ToStr(uploadId)).2);
    var parts := PartRefs(Get(body, "parts").items);
    var found := w.cache.entries[ToStr(uploadId)];
    var u := Uploader(found.bucket, found.key);
    var w2 := w1.(log := w1.log + [Complete(ToStr(u.bucket), ToStr(u.key), ToStr(uploadId), parts.value)]);
    assert CompletionAccepted(env, w2, uploadId, Get(body, "fileId")).0 == Completed;
    assert w2.log[..|w.log|] == w.log;
  }

  /** The converse of CompleteUploadSuccess: a valid request whose session is bound in a healthy
      cache, whose parts all copy, whose completion the storage service accepts, and whose file
      record exists in a healthy database answers 200, provided the binding's DEL does not fail. */
  lemma CompleteUploadSucceeds(env: Env, w: World, body: Value)
    requires ValidCompleteUploadRequest(body)
    requires !env.cacheFault(w.cache.calls) && ToStr(Get(body, "uploadId")) in w.cache.entries
    requires PartRefs(Get(body, "parts").items).Some?
    requires env.reply(|w.log|).Answered? && env.reply(|w.log|).ok
    requires Get(body, "fileId").Str? && Get(body, "fileId").s in w.db.tables.files
    requires !env.dbFault(w.db.calls) && !env.cacheFault(w.cache.calls + 1)
    ensures CompleteUploadSpec(env, w, body).0 == Completed
  {
  }

  /** A session getUrls bound is found by completeUpload: a valid completion for the upload id
      getUrls answered, read from a healthy cache, never answers 404. */
  lemma CompleteAfterGetUrlsFindsSession(env: Env, w: World, body: Value, done: Value)
    requires GetUrlsSpec(env, w, body).0.Urls?
    requires ValidCompleteUploadRequest(done)
    requires Get(done, "uploadId") == Str(GetUrlsSpec(env, w, body).0.uploadId)
    requires !env.cacheFault(GetUrlsSpec(env, w, body).1.cache.calls)
    ensures StatusOf(CompleteUploadSpec(env, GetUrlsSpec(env, w, body).1, done).0) != 404
  {
    GetUrlsSuccess(env, w, body);
    CompleteUploadNotFoundOnlyOnMiss(env, GetUrlsSpec(env, w, body).1, done);
  }

  /** A completed upload cannot be completed twice: its binding is gone, so repeating the request
      against a healthy cache answers 404 and changes nothing. */
  lemma CompleteUploadTwice(env: Env, w: World, body: Value)
    requires CompleteUploadSpec(env, w, body).0 == Completed
    requires !env.cacheFault(CompleteUploadSpec(env, w, body).1.cache.calls)
    ensures var w2 := CompleteUploadSpec(env, w, body).1;
      var (res, w3) := CompleteUploadSpec(env, w2, body);
      && res == Failure(404, SESSION_NOT_FOUND)
      && w3.db == w2.db && w3.cache.entries == w2.cache.entries && w3.log == w2.log
  {
    CompleteUploadSuccess(env, w, body);
    CompleteUploadCacheMiss(env, CompleteUploadSpec(env, w, body).1, body);
  }

  /** The catch block of completeUpload answers 500 and aborts the upload exactly when it can
      still read the session's binding. */
  lemma CompletionFailedAborts(env: Env, w: World, uploadId: Value)
    ensures var (res, w2) := CompletionFailed(env, w, uploadId);
      var key := ToStr(uploadId);
      var bound := !env.cacheFault(w.cache.calls) && key in w.cache.entries;
      && res == Failure(500, COMPLETE_ERROR)
      && w2.db == w.db
      && w2.log == (if bound then w.log + [Abort(ToStr(w.cache.entries[key].bucket), ToStr(w.cache.entries[key].key), key)]
                    else w.log)
  {
  }

  lemma CompletionStatuses(env: Env, w: World, u: Uploader, uploadId: Value, fileId: Value)
    ensures StatusOf(CompletionFailed(env, w, uploadId).0) == 500
    ensures StatusOf(CompletionAccepted(env, w, uploadId, fileId).0) in {200, 500}
    ensures StatusOf(CompletionRejected(env, w, u, uploadId).0) in {400, 500}
    ensures StatusOf(CompletionRejected(env, w, u, uploadId).0) == 400 ==>
      CompletionRejected(env, w, u, uploadId).1.db == w.db
  {
    CompletionFailedStatus(env, w, uploadId);
    CompletionFailedStatus(env, w.(log := w.log + [Abort(ToStr(u.bucket), ToStr(u.key), ToStr(uploadId))]), uploadId);
    CompletionAcceptedStatus(env, w, uploadId, fileId);
  }

  lemma CompletionFailedStatus(env: Env, w: World, uploadId: Value)
    ensures StatusOf(CompletionFailed(env, w, uploadId).0) == 500
  {
  }

  lemma CompletionAcceptedStatus(env: Env, w: World, uploadId: Value, fileId: Value)
    ensures StatusOf(CompletionAccepted(env, w, uploadId, fileId).0) in {200, 500}
  {
    var (okUp, d3) := Run(env.dbFault, w.db, SetFileStatusArgs(w.db.tables, fileId, FileStatus.UPLOADED));
    if okUp {
      var w3 := w.(db := d3);
      CompletionFailedStatus(env, w3.(cache := DelSpec(env.cacheFault, w3.cache, ToStr(uploadId)).1), uploadId);
    } else {
      CompletionFailedStatus(env, w.(db := d3), uploadId);
    }
  }

  /** A 400 or 404 from completeUpload leaves every record as it was. */
  lemma CompleteUploadClientErrorKeepsRecords(env: Env, w: World, body: Value)
    ensures StatusOf(CompleteUploadSpec(env, w, body).0) in {400, 404} ==>
      CompleteUploadSpec(env, w, body).1.db.tables == w.db.tables
  {
    var uploadId := Get(body, "uploadId");
    var w1 := w.(cache := GetSpec(env.cacheFault, w.cache, ToStr(uploadId)).2);
    var found := GetSpec(env.cacheFault, w.cache, ToStr(uploadId)).1;
    CompletionStatuses(env, w1, Uploader(Null, Null), uploadId, Get(body, "fileId"));
    var parts := if Get(body, "parts").Arr? then PartRefs(Get(body, "parts").items) else None;
    if found.Some? && parts.Some? {
      var u := Uploader(found.value.bucket, found.value.key);
      var w2 := w1.(log := w1.log + [Complete(ToStr(u.bucket), ToStr(u.key), ToStr(uploadId), parts.value)]);
      CompletionStatuses(env, w2, u, uploadId, Get(body, "fileId"));
    }
  }

  // ---------------------------------------------------------------------------------------
  // Properties of recordChunkUpload

  /** recordChunkUpload answers 400, touching nothing, exactly when the request is invalid; a
      numeric negative chunk index is invalid, any other number is accepted. */
  lemma RecordChunkRejectsEarly(env: Env, w: World, body: Value)
    ensures var r := RecordChunkSpec(env, w, body);
      && (StatusOf(r.0) == 400 <==> !ValidRecordChunkRequest(body))
      && (StatusOf(r.0) == 400 ==> r.1 == w)
  {
  }

  /** The chunk is recorded, with status PENDING and the etag as checksum, exactly when the
      insert succeeds; nothing else changes. */
  lemma RecordChunkInserted(env: Env, w: World, body: Value)
    requires ValidRecordChunkRequest(body)
    ensures var (res, w2) := RecordChunkSpec(env, w, body);
      var fileId := Get(body, "file_id");
      var idx := Get(body, "chunk_index").n;
      (res == Recorded) <==> (!env.dbFault(w.db.calls) && fileId.Str? && Get(body, "s3_key").Str?
                              && Get(body, "etag").Str? && ParseInt(ToStr(Get(body, "size"))).Some?
                              && (fileId.s, idx) !in w.db.tables.chunks)
    ensures var (res, w2) := RecordChunkSpec(env, w, body);
      var fileId := Get(body, "file_id");
      var idx := Get(body, "chunk_index").n;
      res == Recorded ==>
        && w2.db.tables.files == w.db.tables.files
        && w2.db.tables.chunks == w.db.tables.chunks[(fileId.s, idx) :=
             Chunk(fileId.s, idx, ParseInt(ToStr(Get(body, "size"))).value, Get(body, "s3_key").s,
                   Some(Get(body, "etag").s), ChunkStatus.PENDING)]
        && w2.cache == w.cache && w2.log == w.log
  {
  }

  /** Any failed insert, a duplicate `(fileId, chunkIndex)` included, answers 500 and issues the
      deletion of the file's record and of all its chunks; when those two calls do not fail,
      neither the record nor any chunk of the file remains. */
  lemma RecordChunkFailureDeletesFile(env: Env, w: World, body: Value)
    requires ValidRecordChunkRequest(body) && RecordChunkSpec(env, w, body).0 != Recorded
    requires Get(body, "file_id").Str?
    requires !env.dbFault(w.db.calls + 1) && !env.dbFault(w.db.calls + 2)
    ensures var (res, w2) := RecordChunkSpec(env, w, body);
      var fileId := Get(body, "file_id").s;
      && res == Failure(500, CHUNK_ERROR)
      && fileId !in w2.db.tables.files
      && (forall k :: k in w2.db.tables.chunks ==> k.0 != fileId)
      && (forall id :: id in w.db.tables.files && id != fileId ==> id in w2.db.tables.files && w2.db.tables.files[id] == w.db.tables.files[id])
      && (forall k :: k in w.db.tables.chunks && k.0 != fileId ==> k in w2.db.tables.chunks)
      && w2.cache == w.cache && w2.log == w.log
  {
  }

  // ---------------------------------------------------------------------------------------
  // The handlers

  class FileController {
    const db: Database
    const cache: SessionCache
    const storage: StorageGateway
    const bucket: string

    ghost predicate Valid()
      reads db
    {
      db.Valid()
    }

    function Snapshot(): World
      reads db, cache, storage
    {
      World(db.State(), cache.State(), storage.log)
    }

    function Setting(): Env {
      Env(db.fault, cache.fault, storage.reply, bucket)
    }

    constructor (db: Database, cache: SessionCache, storage: StorageGateway, bucket: string)
      ensures this.db == db && this.cache == cache && this.storage == storage && this.bucket == bucket
    {
      this.db := db;
      this.cache := cache;
      this.storage := storage;
      this.bucket := bucket;
    }

    method CleanupFailedUpload(u: Uploader, fileId: Value, uploadId: Option<string>)
      requires Valid()
      modifies db, cache, storage
      ensures Valid()
      ensures Snapshot() == CleanupSpec(Setting(), old(Snapshot()), u, fileId, uploadId)
    {
      var ok := db.DeleteFileMetadata(fileId);
      if !ok { return; }
      ok := db.DeleteChunks(fileId);
      if !ok { return; }
      if uploadId.Some? {
        var r := storage.AbortUpload(u, Str(uploadId.value));
        if r.Threw? { return; }
        ok := cache.Del(uploadId.value);
      }
    }

    method GetUrls(body: Value) returns (res: Response)
      requires Valid()
      modifies db, cache, storage
      ensures Valid()
      ensures (res, Snapshot()) == GetUrlsSpec(Setting(), old(Snapshot()), body)
    {
      if !ValidGetUrlsRequest(body) {
        return Failure(400, MISSING_FIELDS);
      }
      var fileSizeBytes := FileSizeOf(body);
      if fileSizeBytes.None? || fileSizeBytes.value <= 0 {
        return Failure(400, INVALID_SIZE);
      }
      if fileSizeBytes.value > MAX_FILE_SIZE {
        return Failure(400, SIZE_TOO_LARGE);
      }
      var fileId := Get(body, "file_id");
      var u := Uploader(Str(bucket), Get(body, "s3_key"));
      var init := storage.InitUpload(u);
      if !InitOk(init) {
        CleanupFailedUpload(u, fileId, None);
        return Failure(500, PRESIGN_ERROR);
      }
      var numParts := CeilDiv(fileSizeBytes.value, CHUNK_SIZE);
      res := GetUrlsWithUploadId(body, init.value, numParts);
    }

    method GetUrlsWithUploadId(body: Value, uploadId: string, numParts: int) returns (res: Response)
      requires Valid()
      modifies db, cache, storage
      ensures Valid()
      ensures (res, Snapshot()) == GetUrlsAfterInit(Setting(), old(Snapshot()), body, uploadId, numParts)
    {
      var u := Uploader(Str(bucket), Get(body, "s3_key"));
      var urls := CollectPartUrls(u, uploadId, numParts);
      if urls.None? || |urls.value| != numParts {
        CleanupFailedUpload(u, Get(body, "file_id"), Some(uploadId));
        return Failure(500, PRESIGN_ERROR);
      }
      res := BindSessionAndRecord(body, uploadId, urls.value);
    }

    method BindSessionAndRecord(body: Value, uploadId: string, urls: seq<string>) returns (res: Response)
      requires Valid()
      modifies db, cache, storage
      ensures Valid()
      ensures (res, Snapshot()) == BindAndRecord(Setting(), old(Snapshot()), body, uploadId, urls)
    {
      var fileId := Get(body, "file_id");
      var u := Uploader(Str(bucket), Get(body, "s3_key"));
      var okSet := cache.Set(uploadId, Session(u.bucket, u.key, REDIS_TTL));
      if !okSet {
        CleanupFailedUpload(u, fileId, Some(uploadId));
        return Failure(500, PRESIGN_ERROR);
      }
      var okCreate := db.CreateFileMetadata(fileId, Get(body, "file_name"), Get(body, "file_type"),
                                            Get(body, "file_size"), Get(body, "s3_key"), Get(body, "user_id"));
      if !okCreate {
        CleanupFailedUpload(u, fileId, Some(uploadId));
        return Failure(500, PRESIGN_ERROR);
      }
      return Urls(urls, uploadId);
    }

    /** The `for` loop of getUrls: one presigned URL per part, parts 1 to `numParts` in order,
        stopping at the first part whose URL cannot be had. */
    method CollectPartUrls(u: Uploader, uploadId: string, numParts: int) returns (urls: Option<seq<string>>)
      modifies storage
      ensures (urls, storage.log) == PartUrls(storage.reply, u, uploadId, old(storage.log), 1, numParts, [])
    {
      var collected: seq<string> := [];
      var i := 1;
      while i <= numParts
        invariant i - 1 <= numParts || numParts < 1
        invariant PartUrls(storage.reply, u, uploadId, old(storage.log), 1, numParts, [])
               == PartUrls(storage.reply, u, uploadId, storage.log, i, numParts, collected)
        decreases numParts - i + 1
      {
        var r := storage.GeneratePresignedUrl(u, i, uploadId);
        if !UrlOk(r) {
          return None;
        }
        collected := collected + [r.value];
        i := i + 1;
      }
      return Some(collected);
    }

    /** The `catch` block of completeUpload. */
    method CompletionCleanup(uploadId: Value) returns (res: Response)
      requires Valid()
      modifies db, cache, storage
      ensures Valid()
      ensures (res, Snapshot()) == CompletionFailed(Setting(), old(Snapshot()), uploadId)
    {
      res := Failure(500, COMPLETE_ERROR);
      var key := ToStr(uploadId);
      var ok, found := cache.Get(key);
      if !ok { return; }
      if found.Some? {
        var r := storage.AbortUpload(Uploader(found.value.bucket, found.value.key), uploadId);
        if r.Threw? { return; }
      }
      ok := cache.Del(key);
    }

    method CompleteUpload(body: Value) returns (res: Response)
      requires Valid()
      modifies db, cache, storage
      ensures Valid()
      ensures (res, Snapshot()) == CompleteUploadSpec(Setting(), old(Snapshot()), body)
    {
      if !ValidCompleteUploadRequest(body) {
        return Failure(400, MISSING_FIELDS);
      }
      var uploadId := Get(body, "uploadId");
      var key := ToStr(uploadId);
      var okGet, found := cache.Get(key);
      if !okGet {
        res := CompletionCleanup(uploadId);
        return;
      }
      if found.None? {
        return Failure(404, SESSION_NOT_FOUND);
      }
      var parts := PartRefs(Get(body, "parts").items);
      if parts.None? {
        res := CompletionCleanup(uploadId);
        return;
      }
      var u := Uploader(found.value.bucket, found.value.key);
      var r := storage.CompleteUpload(u, parts.value, uploadId);
      if r.Threw? {
        res := CompletionCleanup(uploadId);
        return;
      }
      if !r.ok {
        var a := storage.AbortUpload(u, uploadId);
        if a.Threw? {
          res := CompletionCleanup(uploadId);
          return;
        }
        var okDel := cache.Del(key);
        if !okDel {
          res := CompletionCleanup(uploadId);
          return;
        }
        return Failure(400, ETAGS_FAILED);
      }
      var okUp := db.RecordUploadedMetadata(Get(body, "fileId"));
      if !okUp {
        res := CompletionCleanup(uploadId);
        return;
      }
      var okDel := cache.Del(key);
      if !okDel {
        res := CompletionCleanup(uploadId);
        return;
      }
      return Completed;
    }

    method RecordChunkUpload(body: Value) returns (res: Response)
      requires Valid()
      modifies db
      ensures Valid()
      ensures (res, Snapshot()) == RecordChunkSpec(Setting(), old(Snapshot()), body)
    {
      if !ValidRecordChunkRequest(body) {
        return Failure(400, MISSING_FIELDS);
      }
      var fileId := Get(body, "file_id");
      var ok := db.CreatePendingChunk(fileId, Get(body, "chunk_index"), ParseInt(ToStr(Get(body, "size"))),
                                      Get(body, "s3_key"), Get(body, "etag"));
      if ok {
        return Recorded;
      }
      ok := db.DeleteFileMetadata(fileId);
      ok := db.DeleteChunks(fileId);
      return Failure(500, CHUNK_ERROR);
    }
  }
}
