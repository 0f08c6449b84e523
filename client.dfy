/**
 * The browser side of a multipart upload, `FileUploader` in `frontend/src/main.ts`: the file
 * is cut into parts of `chunkSize` bytes, the backend is asked for one presigned URL per part,
 * every part is PUT to its URL in ascending order and reported to the backend, and the upload
 * is then completed with the parts' ETags. The `fetch` calls are requests appended to a log;
 * their answers come from an oracle indexed by the position of the request in the log.
 */
module UploadClient {
  import opened Wrappers
  import opened Js
  import opened UriCodec
  import FileController
  import Sequences

  /** The default part size, 5 MiB. */
  const DEFAULT_CHUNK_SIZE: int := 5 * 1024 * 1024

  /** The user id the client sends with every upload. */
  const USER_ID: string := "8ec22669-d791-4ded-af6c-ff6d9541952c"

  /** The prefix of every storage key the client makes up. */
  const KEY_PREFIX: string := "dropbox-test/"

  datatype File = File(name: string, mimeType: string, content: seq<Byte>)

  /** A `FileUploader` once constructed; its fields are never changed afterwards. */
  datatype Uploader = Uploader(file: File, chunkSize: int, numParts: int, fileId: string)

  predicate ValidUploader(u: Uploader) {
    u.chunkSize > 0 && u.numParts == CeilDiv(|u.file.content|, u.chunkSize)
  }

  /** `new FileUploader(file, chunkSize)`, with the fresh `uuidv4()` as a parameter. */
  function NewUploader(file: File, fileId: string, chunkSize: int): (u: Uploader)
    requires chunkSize > 0
    ensures ValidUploader(u) && u.file == file && u.fileId == fileId && u.chunkSize == chunkSize
    ensures (u.numParts - 1) * chunkSize < |file.content| <= u.numParts * chunkSize
  {
    Uploader(file, chunkSize, CeilDiv(|file.content|, chunkSize), fileId)
  }

  function Min(a: int, b: int): int {
    if a <= b then a else b
  }

  /** A position as `Blob.slice` reads it: negative positions count from the end, and the
      result is clamped to the blob. */
  function Clamp(pos: int, size: nat): (r: nat)
    ensures r <= size
  {
    if pos < 0 then (if size + pos < 0 then 0 else size + pos)
    else if pos > size then size
    else pos
  }

  /** `blob.slice(start, end)`: empty when the end falls before the start. */
  function Slice(content: seq<Byte>, start: int, end: int): seq<Byte> {
    var lo, hi := Clamp(start, |content|), Clamp(end, |content|);
    if hi <= lo then [] else content[lo..hi]
  }

  /** `getPart(partNumber)`. */
  function GetPart(u: Uploader, partNumber: int): seq<Byte> {
    var start := (partNumber - 1) * u.chunkSize;
    var end := Min(start + u.chunkSize, |u.file.content|);
    Slice(u.file.content, start, end)
  }

  /** The storage key the client chooses. */
  function S3KeyOf(u: Uploader): string {
    KEY_PREFIX + u.fileId + "-" + u.file.name
  }

  // ---------------------------------------------------------------------------------------
  // The requests

  /** An entry of `uploaded_parts`. */
  datatype Part = Part(etag: Option<string>, partNumber: int)

  datatype Request =
    | GetUrlsRequest(fileId: string, fileName: string, fileType: string, fileSize: string, userId: string, s3Key: string)
    | PutRequest(url: Value, bytes: seq<Byte>)
    | RecordChunkRequest(fileId: string, chunkIndex: int, size: int, etag: Option<string>, s3Key: string)
    | CompleteRequest(uploadId: Value, parts: seq<Part>, fileId: string)

  /** The answer to a `fetch`: the promise rejects (`Failed`), or a response with its `ok` flag,
      its ETag header (`null` when absent) and its body read as JSON (`None` when `json()`
      rejects). */
  datatype Reply = Failed | Answered(ok: bool, etag: Option<string>, body: Option<Value>)

  /** The JSON of an answer, when it can be read and its properties accessed. */
  predicate Readable(r: Reply) {
    r.Answered? && r.body.Some? && !Nullish(r.body.value)
  }

  /** `urls[i]` on a value that is not nullish. A part index is far below 1e21, so the property
      name `String(i)` is its decimal spelling. */
  function Element(v: Value, i: nat): Value {
    match v
    case Arr(items) => if i < |items| then items[i] else Undefined
    case Str(s) => if i < |s| then Str([s[i]]) else Undefined
    case Obj(_) => Get(v, NatToDecimal(i))
    case _ => Undefined
  }

  /** The ETag header an answer carries. */
  function EtagOf(r: Reply): Option<string> {
    if r.Answered? then r.etag else None
  }

  /** The requests of one turn of the parts loop that gets through: the PUT of part `i + 1` to
      `urls[i]`, then its report with the ETag of the PUT's answer `answer(k)`. */
  function TurnRequests(u: Uploader, answer: nat -> Reply, urls: Value, s3Key: string, i: nat, k: nat): seq<Request> {
    [PutRequest(Element(urls, i), GetPart(u, i + 1)),
     RecordChunkRequest(u.fileId, i + 1, |GetPart(u, i + 1)|, EtagOf(answer(k)), s3Key)]
  }

  /** The loop over parts `i + 1 .. numParts`, its first request answered by `answer(k)`, with
      the parts collected so far: whether it ran to the end, the requests it sent and the parts
      collected. A rejected `fetch`, a non-ok PUT and a nullish `urls` throw and end the loop. */
  function PartsSpec(u: Uploader, answer: nat -> Reply, urls: Value, s3Key: string, i: nat, k: nat, parts: seq<Part>)
    : (r: (bool, seq<Request>, seq<Part>))
    decreases u.numParts - i
  {
    if i >= u.numParts then (true, [], parts)
    else if Nullish(urls) then (false, [], parts)
    else if answer(k).Failed? || !answer(k).ok then (false, [PutRequest(Element(urls, i), GetPart(u, i + 1))], parts)
    else if answer(k + 1).Failed? then (false, TurnRequests(u, answer, urls, s3Key, i, k), parts)
    else
      var rest := PartsSpec(u, answer, urls, s3Key, i + 1, k + 2, parts + [Part(EtagOf(answer(k)), i + 1)]);
      (rest.0, TurnRequests(u, answer, urls, s3Key, i, k) + rest.1, rest.2)
  }

  function GetUrlsOf(u: Uploader): Request {
    GetUrlsRequest(u.fileId, u.file.name, u.file.mimeType, NumberToString(|u.file.content|), USER_ID, S3KeyOf(u))
  }

  /** `upload()`, its first request answered by `answer(k)`: whether it returned
      `{success: true}`, and the requests it sent. */
  function UploadSpec(u: Uploader, answer: nat -> Reply, k: nat): (r: (bool, seq<Request>)) {
    var first := answer(k);
    if !Readable(first) then (false, [GetUrlsOf(u)])
    else
      var urls, uploadId := Get(first.body.value, "presignedUrls"), Get(first.body.value, "uploadId");
      var loop := PartsSpec(u, answer, urls, S3KeyOf(u), 0, k + 1, []);
      if !loop.0 then (false, [GetUrlsOf(u)] + loop.1)
      else
        var last := answer(k + 1 + |loop.1|);
        (Readable(last) && Truthy(Get(last.body.value, "success")),
         [GetUrlsOf(u)] + loop.1 + [CompleteRequest(uploadId, loop.2, u.fileId)])
  }

  // ---------------------------------------------------------------------------------------
  // The network and the upload loop

  /** The requests sent so far and the oracle that answers them. */
  class Network {
    var sent: seq<Request>
    const answer: nat -> Reply

    constructor (answer: nat -> Reply)
      ensures sent == [] && this.answer == answer
    {
      sent := [];
      this.answer := answer;
    }

    /** `await fetch(...)`. */
    method Fetch(req: Request) returns (reply: Reply)
      modifies this
      ensures sent == old(sent) + [req] && reply == answer(|old(sent)|)
    {
      reply := answer(|sent|);
      sent := sent + [req];
    }
  }

  method Upload(u: Uploader, net: Network) returns (success: bool)
    requires ValidUploader(u)
    modifies net
    ensures var spec := UploadSpec(u, net.answer, |old(net.sent)|);
      success == spec.0 && net.sent == old(net.sent) + spec.1
  {
    ghost var spec := UploadSpec(u, net.answer, |net.sent|);
    ghost var k := |net.sent|;
    var first := net.Fetch(GetUrlsOf(u));
    if !Readable(first) {
      assert spec == (false, [GetUrlsOf(u)]);
      return false;
    }
    var urls, uploadId := Get(first.body.value, "presignedUrls"), Get(first.body.value, "uploadId");
    ghost var loop := PartsSpec(u, net.answer, urls, S3KeyOf(u), 0, k + 1, []);
    var ok, parts := UploadParts(u, net, urls, S3KeyOf(u));
    if !ok {
      assert spec == (false, [GetUrlsOf(u)] + loop.1);
      Sequences.AppendAssoc(old(net.sent), [GetUrlsOf(u)], loop.1);
      return false;
    }
    var complete := CompleteRequest(uploadId, parts, u.fileId);
    var last := net.Fetch(complete);
    success := Readable(last) && Truthy(Get(last.body.value, "success"));
    assert spec == (success, [GetUrlsOf(u)] + loop.1 + [complete]);
    Sequences.AppendAssoc(old(net.sent), [GetUrlsOf(u)], loop.1);
    Sequences.AppendAssoc(old(net.sent), [GetUrlsOf(u)] + loop.1, [complete]);
  }

  /** `for (let i = 0; i < this.numParts; ++i)`: PUT part `i + 1` to `urls[i]`, report it, and
      collect its ETag. */
  method UploadParts(u: Uploader, net: Network, urls: Value, s3Key: string) returns (ok: bool, parts: seq<Part>)
    requires ValidUploader(u)
    modifies net
    ensures var spec := PartsSpec(u, net.answer, urls, s3Key, 0, |old(net.sent)|, []);
      ok == spec.0 && net.sent == old(net.sent) + spec.1 && (ok ==> parts == spec.2)
  {
    parts := [];
    ghost var issued: seq<Request> := [];
    ghost var k0 := |net.sent|;
    Sequences.AppendEmpty(net.sent, PartsSpec(u, net.answer, urls, s3Key, 0, k0, []).1);
    var i := 0;
    while i < u.numParts
      invariant net.sent == old(net.sent) + issued && |net.sent| == k0 + |issued|
      invariant var rest := PartsSpec(u, net.answer, urls, s3Key, i, |net.sent|, parts);
        PartsSpec(u, net.answer, urls, s3Key, 0, k0, []) == (rest.0, issued + rest.1, rest.2)
      decreases u.numParts - i
    {
      ok, parts, issued := UploadPart(u, net, urls, s3Key, i, parts, old(net.sent), issued, k0);
      if !ok {
        return;
      }
      i := i + 1;
    }
    Sequences.AppendEmpty(issued, issued);
    ok := true;
  }

  /** One turn of the parts loop: `ok` when it got through to the next part; otherwise the
      loop, and the upload, end here. */
  method UploadPart(u: Uploader, net: Network, urls: Value, s3Key: string, i: nat, parts: seq<Part>,
                    ghost base: seq<Request>, ghost issued: seq<Request>, ghost k0: nat)
    returns (ok: bool, parts': seq<Part>, ghost issued': seq<Request>)
    requires i < u.numParts && net.sent == base + issued && |net.sent| == k0 + |issued|
    requires var rest := PartsSpec(u, net.answer, urls, s3Key, i, |net.sent|, parts);
      PartsSpec(u, net.answer, urls, s3Key, 0, k0, []) == (rest.0, issued + rest.1, rest.2)
    modifies net
    ensures ok ==> net.sent == base + issued' && |net.sent| == k0 + |issued'|
    ensures ok ==> var rest := PartsSpec(u, net.answer, urls, s3Key, i + 1, |net.sent|, parts');
      PartsSpec(u, net.answer, urls, s3Key, 0, k0, []) == (rest.0, issued' + rest.1, rest.2)
    ensures !ok ==> var spec := PartsSpec(u, net.answer, urls, s3Key, 0, k0, []);
      !spec.0 && net.sent == base + spec.1
  {
    parts', issued' := parts, issued;
    ghost var k := |net.sent|;
    ghost var rest := PartsSpec(u, net.answer, urls, s3Key, i, k, parts);
    PartsStep(u, net.answer, urls, s3Key, i, k, parts);
    if Nullish(urls) {
      assert rest == (false, [], parts);
      Sequences.AppendEmpty(issued, issued);
      return false, parts, issued;
    }
    var part := GetPart(u, i + 1);
    var put := PutRequest(Element(urls, i), part);
    var res := net.Fetch(put);
    if res.Failed? || !res.ok {
      assert rest == (false, [put], parts);
      Sequences.AppendAssoc(base, issued, [put]);
      return false, parts, issued;
    }
    ok, parts', issued' := ReportPart(u, net, urls, s3Key, i, parts, base, issued, k0, res);
  }

  /** The second half of a turn, once the PUT was answered ok: report the part to the backend. */
  method ReportPart(u: Uploader, net: Network, urls: Value, s3Key: string, i: nat, parts: seq<Part>,
                    ghost base: seq<Request>, ghost issued: seq<Request>, ghost k0: nat, res: Reply)
    returns (ok: bool, parts': seq<Part>, ghost issued': seq<Request>)
    requires i < u.numParts && !Nullish(urls)
    requires net.sent == base + issued + [PutRequest(Element(urls, i), GetPart(u, i + 1))]
    requires |net.sent| == k0 + |issued| + 1
    requires res == net.answer(k0 + |issued|) && !res.Failed? && res.ok
    requires var rest := PartsSpec(u, net.answer, urls, s3Key, i, k0 + |issued|, parts);
      PartsSpec(u, net.answer, urls, s3Key, 0, k0, []) == (rest.0, issued + rest.1, rest.2)
    modifies net
    ensures ok ==> net.sent == base + issued' && |net.sent| == k0 + |issued'|
    ensures ok ==> var rest := PartsSpec(u, net.answer, urls, s3Key, i + 1, |net.sent|, parts');
      PartsSpec(u, net.answer, urls, s3Key, 0, k0, []) == (rest.0, issued' + rest.1, rest.2)
    ensures !ok ==> var spec := PartsSpec(u, net.answer, urls, s3Key, 0, k0, []);
      !spec.0 && net.sent == base + spec.1
  {
    parts', issued' := parts, issued;
    ghost var k := k0 + |issued|;
    ghost var rest := PartsSpec(u, net.answer, urls, s3Key, i, k, parts);
    PartsStepAfterPut(u, net.answer, urls, s3Key, i, k, parts);
    var part := GetPart(u, i + 1);
    var rec := RecordChunkRequest(u.fileId, i + 1, |part|, EtagOf(res), s3Key);
    var report := net.Fetch(rec);
    ghost var turn := [PutRequest(Element(urls, i), part), rec];
    assert turn == TurnRequests(u, net.answer, urls, s3Key, i, k);
    Sequences.AppendAssoc(base, issued, turn);
    assert base + issued + turn == net.sent;
    if report.Failed? {
      assert rest == (false, turn, parts);
      return false, parts, issued;
    }
    parts' := parts + [Part(EtagOf(res), i + 1)];
    ghost var next := PartsSpec(u, net.answer, urls, s3Key, i + 1, k + 2, parts');
    assert rest == (next.0, turn + next.1, next.2);
    Sequences.AppendAssoc(issued, turn, next.1);
    issued' := issued + turn;
    ok := true;
  }

  /** The cases of one turn of the parts loop. */
  lemma PartsStep(u: Uploader, answer: nat -> Reply, urls: Value, s3Key: string, i: nat, k: nat, parts: seq<Part>)
    requires i < u.numParts
    ensures var r, put := PartsSpec(u, answer, urls, s3Key, i, k, parts), PutRequest(Element(urls, i), GetPart(u, i + 1));
      if Nullish(urls) then r == (false, [], parts)
      else if answer(k).Failed? || !answer(k).ok then r == (false, [put], parts)
      else if answer(k + 1).Failed? then r == (false, TurnRequests(u, answer, urls, s3Key, i, k), parts)
      else
        var next := PartsSpec(u, answer, urls, s3Key, i + 1, k + 2, parts + [Part(EtagOf(answer(k)), i + 1)]);
        r == (next.0, TurnRequests(u, answer, urls, s3Key, i, k) + next.1, next.2)
  {
  }

  /** The cases of one turn of the parts loop once its PUT was answered ok. */
  lemma PartsStepAfterPut(u: Uploader, answer: nat -> Reply, urls: Value, s3Key: string, i: nat, k: nat, parts: seq<Part>)
    requires i < u.numParts && !Nullish(urls) && !answer(k).Failed? && answer(k).ok
    ensures answer(k + 1).Failed? ==>
      PartsSpec(u, answer, urls, s3Key, i, k, parts) == (false, TurnRequests(u, answer, urls, s3Key, i, k), parts)
    ensures !answer(k + 1).Failed? ==>
      var next := PartsSpec(u, answer, urls, s3Key, i + 1, k + 2, parts + [Part(EtagOf(answer(k)), i + 1)]);
      PartsSpec(u, answer, urls, s3Key, i, k, parts) == (next.0, TurnRequests(u, answer, urls, s3Key, i, k) + next.1, next.2)
  {
    PartsStep(u, answer, urls, s3Key, i, k, parts);
  }

  // ---------------------------------------------------------------------------------------
  // The parts partition the file

  lemma PartArithmetic(c: int, size: int, n: int, p: int)
    requires c > 0 && (n - 1) * c < size <= n * c && 1 <= p <= n
    ensures 0 <= (p - 1) * c < size && (p - 1) * c + c == p * c
    ensures p < n ==> p * c < size
  {
    assert (p - 1) * c <= (n - 1) * c;
    if p < n {
      assert p * c <= (n - 1) * c;
    }
  }

  /** Part `p` is the byte range `[(p-1)*chunkSize, min(p*chunkSize, size))`; every part is at
      most `chunkSize` long, all but the last are exactly that long, and the last is not empty. */
  lemma PartRange(u: Uploader, p: int)
    requires ValidUploader(u) && 1 <= p <= u.numParts
    ensures (p - 1) * u.chunkSize < |u.file.content|
    ensures GetPart(u, p) == u.file.content[(p - 1) * u.chunkSize .. Min(p * u.chunkSize, |u.file.content|)]
    ensures 0 < |GetPart(u, p)| <= u.chunkSize
    ensures p < u.numParts ==> |GetPart(u, p)| == u.chunkSize
  {
    PartArithmetic(u.chunkSize, |u.file.content|, u.numParts, p);
  }

  /** The first `n` parts, concatenated. */
  function Joined(u: Uploader, n: nat): seq<Byte> {
    if n == 0 then [] else Joined(u, n - 1) + GetPart(u, n)
  }

  /** The first `n` parts are contiguous: together they are the file's first `min(n*chunkSize,
      size)` bytes. */
  lemma {:induction false} JoinedPrefix(u: Uploader, n: nat)
    requires ValidUploader(u) && n <= u.numParts
    ensures Joined(u, n) == u.file.content[..Min(n * u.chunkSize, |u.file.content|)]
  {
    if n > 0 {
      JoinedPrefix(u, n - 1);
      PartRange(u, n);
      PartArithmetic(u.chunkSize, |u.file.content|, u.numParts, n);
      Sequences.TakeConcat(u.file.content, (n - 1) * u.chunkSize, Min(n * u.chunkSize, |u.file.content|));
    }
  }

  /** The parts `1 .. numParts` cover the file exactly, in order and without overlap. */
  lemma PartsCoverFile(u: Uploader)
    requires ValidUploader(u)
    ensures Joined(u, u.numParts) == u.file.content
  {
    JoinedPrefix(u, u.numParts);
    Sequences.TakeAll(u.file.content);
  }

  // ---------------------------------------------------------------------------------------
  // The order of the requests

  /** The parts a loop from part `i + 1` collects when `count` turns get through. */
  function Collected(answer: nat -> Reply, i: nat, k: nat, count: nat): (r: seq<Part>)
    ensures |r| == count
    decreases count
  {
    if count == 0 then [] else [Part(EtagOf(answer(k)), i + 1)] + Collected(answer, i + 1, k + 2, count - 1)
  }

  /** The requests a loop from part `i + 1` issues when `count` turns get through. */
  function Issued(u: Uploader, answer: nat -> Reply, urls: Value, s3Key: string, i: nat, k: nat, count: nat): (r: seq<Request>)
    ensures |r| == 2 * count
    decreases count
  {
    if count == 0 then []
    else TurnRequests(u, answer, urls, s3Key, i, k) + Issued(u, answer, urls, s3Key, i + 1, k + 2, count - 1)
  }

  /** A parts loop that runs to the end issues the turn requests of every part and collects one
      part per part number. */
  lemma {:induction false} PartsSpecSucceeds(u: Uploader, answer: nat -> Reply, urls: Value, s3Key: string, i: nat, k: nat, parts: seq<Part>)
    requires i <= u.numParts && PartsSpec(u, answer, urls, s3Key, i, k, parts).0
    ensures var r := PartsSpec(u, answer, urls, s3Key, i, k, parts);
      r.1 == Issued(u, answer, urls, s3Key, i, k, u.numParts - i) && r.2 == parts + Collected(answer, i, k, u.numParts - i)
    decreases u.numParts - i
  {
    if i == u.numParts {
      Sequences.AppendEmpty(parts, parts);
    } else {
      var p := Part(EtagOf(answer(k)), i + 1);
      PartsSpecSucceeds(u, answer, urls, s3Key, i + 1, k + 2, parts + [p]);
      Sequences.AppendAssoc(parts, [p], Collected(answer, i + 1, k + 2, u.numParts - i - 1));
    }
  }

  lemma {:induction false} CollectedAt(answer: nat -> Reply, i: nat, k: nat, count: nat, j: nat)
    requires j < count
    ensures Collected(answer, i, k, count)[j] == Part(EtagOf(answer(k + 2 * j)), i + j + 1)
    decreases count
  {
    if j > 0 {
      CollectedAt(answer, i + 1, k + 2, count - 1, j - 1);
    }
  }

  /** In a loop from part `i + 1` that gets through `count` turns, part `p + 1` is PUT and
      reported by requests `2(p - i)` and `2(p - i) + 1`, the PUT answered by `answer(q)`. */
  lemma {:induction false} IssuedAt(u: Uploader, answer: nat -> Reply, urls: Value, s3Key: string, i: nat, k: nat, count: nat, p: nat, q: nat)
    requires i <= p < i + count && q == k + 2 * (p - i)
    ensures var r, turn := Issued(u, answer, urls, s3Key, i, k, count), TurnRequests(u, answer, urls, s3Key, p, q);
      r[2 * (p - i)] == turn[0] && r[2 * (p - i) + 1] == turn[1]
    decreases count
  {
    var head, tail := TurnRequests(u, answer, urls, s3Key, i, k), Issued(u, answer, urls, s3Key, i + 1, k + 2, count - 1);
    if p > i {
      IssuedAt(u, answer, urls, s3Key, i + 1, k + 2, count - 1, p, q);
      Sequences.PairShift(head, tail, p - i);
    }
  }

  /** A PUT that is not ok ends the upload: `{success: false}`, and no completion is requested. */
  lemma {:induction false} PartsNeverComplete(u: Uploader, answer: nat -> Reply, urls: Value, s3Key: string, i: nat, k: nat, parts: seq<Part>)
    ensures forall q :: q in PartsSpec(u, answer, urls, s3Key, i, k, parts).1 ==> !q.CompleteRequest?
    decreases u.numParts - i
  {
    if i < u.numParts && !Nullish(urls) && answer(k).Answered? && answer(k).ok && !answer(k + 1).Failed? {
      PartsNeverComplete(u, answer, urls, s3Key, i + 1, k + 2, parts + [Part(EtagOf(answer(k)), i + 1)]);
    }
  }

  lemma FailedPartEndsUpload(u: Uploader, answer: nat -> Reply, k: nat)
    requires Readable(answer(k))
    requires !PartsSpec(u, answer, Get(answer(k).body.value, "presignedUrls"), S3KeyOf(u), 0, k + 1, []).0
    ensures !UploadSpec(u, answer, k).0
    ensures forall q :: q in UploadSpec(u, answer, k).1 ==> !q.CompleteRequest?
  {
    PartsNeverComplete(u, answer, Get(answer(k).body.value, "presignedUrls"), S3KeyOf(u), 0, k + 1, []);
  }

  /** A successful upload got readable URLs, ran the parts loop to the end, and sent: the
      `get-urls` request, the PUT and the report of every part `1 .. numParts` in ascending
      order, then the completion with the parts collected. */
  lemma UploadSuccess(u: Uploader, answer: nat -> Reply, k: nat)
    requires ValidUploader(u) && UploadSpec(u, answer, k).0
    ensures Readable(answer(k))
    ensures var urls, uploadId := Get(answer(k).body.value, "presignedUrls"), Get(answer(k).body.value, "uploadId");
      UploadSpec(u, answer, k).1 ==
        [GetUrlsOf(u)] + Issued(u, answer, urls, S3KeyOf(u), 0, k + 1, u.numParts)
        + [CompleteRequest(uploadId, Collected(answer, 0, k + 1, u.numParts), u.fileId)]
  {
    assert Readable(answer(k));
    var urls, uploadId := Get(answer(k).body.value, "presignedUrls"), Get(answer(k).body.value, "uploadId");
    var loop := PartsSpec(u, answer, urls, S3KeyOf(u), 0, k + 1, []);
    assert loop.0;
    assert UploadSpec(u, answer, k).1 == [GetUrlsOf(u)] + loop.1 + [CompleteRequest(uploadId, loop.2, u.fileId)];
    PartsSpecSucceeds(u, answer, urls, S3KeyOf(u), 0, k + 1, []);
    var issued, collected := Issued(u, answer, urls, S3KeyOf(u), 0, k + 1, u.numParts), Collected(answer, 0, k + 1, u.numParts);
    Sequences.AppendEmpty(collected, collected);
    assert loop.1 == issued && loop.2 == collected;
  }

  /** The parts sent with the completion are numbered `1 .. count` in ascending order, part `p`
      carrying the ETag of the answer to its PUT. */
  lemma CompletionParts(answer: nat -> Reply, k: nat, count: nat)
    ensures forall j :: 0 <= j < count ==> Collected(answer, 0, k, count)[j] == Part(EtagOf(answer(k + 2 * j)), j + 1)
  {
    forall j | 0 <= j < count
      ensures Collected(answer, 0, k, count)[j] == Part(EtagOf(answer(k + 2 * j)), j + 1)
    {
      CollectedAt(answer, 0, k, count, j);
    }
  }

  // ---------------------------------------------------------------------------------------
  // Agreement with the backend

  /** The JSON body of the `get-urls` request (`file_size` is `file.size.toString()`). */
  function GetUrlsBody(r: Request): Value
    requires r.GetUrlsRequest?
  {
    Obj(map["file_id" := Str(r.fileId), "file_name" := Str(r.fileName), "file_type" := Str(r.fileType),
            "file_size" := Str(r.fileSize), "user_id" := Str(r.userId), "s3_key" := Str(r.s3Key)])
  }

  /** `JSON.stringify` of a chunk report as the backend parses it: a missing ETag is `null`. */
  function RecordChunkBody(r: Request): Value
    requires r.RecordChunkRequest?
  {
    Obj(map["file_id" := Str(r.fileId), "chunk_index" := Num(r.chunkIndex), "size" := Num(r.size),
            "etag" := (if r.etag.Some? then Str(r.etag.value) else Null), "s3_key" := Str(r.s3Key)])
  }

  /** The backend accepts the report of a part of a file with a non-empty id exactly when the
      answer to the part's PUT carried a non-empty ETag. */
  lemma ReportAcceptedIff(u: Uploader, answer: nat -> Reply, urls: Value, i: nat, k: nat)
    requires ValidUploader(u) && u.fileId != "" && i < u.numParts
    ensures var report := TurnRequests(u, answer, urls, S3KeyOf(u), i, k)[1];
      FileController.ValidRecordChunkRequest(RecordChunkBody(report)) <==>
      EtagOf(answer(k)).Some? && EtagOf(answer(k)).value != ""
  {
    PartRange(u, i + 1);
    var report := TurnRequests(u, answer, urls, S3KeyOf(u), i, k)[1];
    var body := RecordChunkBody(report);
    assert Get(body, "size") == Num(|GetPart(u, i + 1)|);
    assert Get(body, "chunk_index") == Num(i + 1);
    assert S3KeyOf(u)[0] == 'd';
    assert Get(body, "s3_key") == Str(S3KeyOf(u)) && Get(body, "file_id") == Str(u.fileId);
  }

  /** In a successful upload whose `get-urls` answer is `answer(k)`, request `2p + 1` is the PUT
      of part `p + 1` to `urls[p]` and request `2p + 2` its report, carrying the ETag of the
      answer to that PUT, for every `p < numParts`; the completion comes last. */
  lemma PartRequestsInOrder(u: Uploader, answer: nat -> Reply, k: nat, p: nat)
    requires ValidUploader(u) && UploadSpec(u, answer, k).0 && p < u.numParts
    ensures Readable(answer(k))
    ensures var sent, urls := UploadSpec(u, answer, k).1, Get(answer(k).body.value, "presignedUrls");
      && |sent| == 2 * u.numParts + 2
      && sent[2 * p + 1] == PutRequest(Element(urls, p), GetPart(u, p + 1))
      && sent[2 * p + 2] == RecordChunkRequest(u.fileId, p + 1, |GetPart(u, p + 1)|, EtagOf(answer(k + 1 + 2 * p)), S3KeyOf(u))
      && sent[2 * u.numParts + 1].CompleteRequest?
  {
    UploadSuccess(u, answer, k);
    var urls := Get(answer(k).body.value, "presignedUrls");
    var issued := Issued(u, answer, urls, S3KeyOf(u), 0, k + 1, u.numParts);
    IssuedAt(u, answer, urls, S3KeyOf(u), 0, k + 1, u.numParts, p, k + 1 + 2 * p);
    Sequences.IndexAppend([GetUrlsOf(u)], issued, 2 * p);
    Sequences.IndexAppend([GetUrlsOf(u)], issued, 2 * p + 1);
  }

  /** The backend reads back the size the client sent, and with the default part size it
      counts as many parts, and so presigns as many URLs, as the client will PUT. From 1e21
      bytes on `toString` writes the size in exponent notation and the backend reads only its
      leading digit. */
  lemma BackendAgreesOnPartCount(u: Uploader)
    requires ValidUploader(u) && u.chunkSize == DEFAULT_CHUNK_SIZE
    ensures |u.file.content| < EXPONENT_THRESHOLD ==>
      FileController.FileSizeOf(GetUrlsBody(GetUrlsOf(u))) == Some(|u.file.content|)
    ensures |u.file.content| < EXPONENT_THRESHOLD ==>
      CeilDiv(FileController.FileSizeOf(GetUrlsBody(GetUrlsOf(u))).value, FileController.CHUNK_SIZE) == u.numParts
    ensures |u.file.content| >= EXPONENT_THRESHOLD ==>
      FileController.FileSizeOf(GetUrlsBody(GetUrlsOf(u))) == Some(LeadingDigit(|u.file.content|))
  {
    var n := |u.file.content|;
    assert Get(GetUrlsBody(GetUrlsOf(u)), "file_size") == Str(NumberToString(n));
    FileController.FileSizeOfNumber(GetUrlsBody(GetUrlsOf(u)), n);
  }

}
