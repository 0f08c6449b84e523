/**
 * The object store as the controller reaches it through `S3Uploader`: start a multipart
 * upload, presign the URL of one part, complete the upload from its part list, abort it.
 * The store itself is outside the model: it is a log of the calls made to it, and the answer
 * to the n-th call is drawn from an oracle.
 */
module Storage {
  import opened Wrappers
  import opened Js

  /** The answer to one call: the call threw, or it answered. For init and presign, `value` is
      the upload id or the URL (empty standing for the absent or falsy value S3Uploader checks
      for) and `ok` is that method's `success`; for complete, `ok` is the `success` the
      controller tests; for abort, any answer is success. */
  datatype Reply = Threw | Answered(ok: bool, value: string)

  /** One `{ETag, PartNumber}` entry of the part list, as `parts.map` copies it. */
  datatype PartRef = PartRef(etag: Value, partNumber: Value)

  datatype StorageCall =
    | Init(bucket: string, key: string)
    | PartUrl(bucket: string, key: string, partNumber: int, uploadId: string)
    | Complete(bucket: string, key: string, uploadId: string, parts: seq<PartRef>)
    | Abort(bucket: string, key: string, uploadId: string)

  /** `new S3Uploader(bucket, key)`: the two values it was constructed with. */
  datatype Uploader = Uploader(bucket: Value, key: Value)

  /** `initUpload()` succeeded with a usable upload id. */
  predicate InitOk(r: Reply) {
    r.Answered? && r.ok && r.value != ""
  }

  /** `generatePreSignedUrls(i, uploadId)` succeeded with a usable URL. */
  predicate UrlOk(r: Reply) {
    r.Answered? && r.ok && r.value != ""
  }

  /** The string an answer carries (empty for a call that threw). */
  function UrlOf(r: Reply): string {
    if r.Answered? then r.value else ""
  }

  /** `parts.map(part => ({ETag: part.ETag, PartNumber: part.PartNumber}))`; reading a property
      of null or undefined throws, which is `None`. */
  function PartRefs(items: seq<Value>): (r: Option<seq<PartRef>>)
    ensures r.Some? <==> forall i :: 0 <= i < |items| ==> !(items[i].Null? || items[i].Undefined?)
    ensures r.Some? ==> |r.value| == |items|
    ensures r.Some? ==> forall i :: 0 <= i < |items| ==>
      r.value[i] == PartRef(Get(items[i], "ETag"), Get(items[i], "PartNumber"))
    decreases |items|
  {
    if items == [] then Some([])
    else if items[0].Null? || items[0].Undefined? then None
    else match PartRefs(items[1..])
      case None => None
      case Some(rest) => Some([PartRef(Get(items[0], "ETag"), Get(items[0], "PartNumber"))] + rest)
  }

  class StorageGateway {
    var log: seq<StorageCall>
    const reply: nat -> Reply

    constructor (reply: nat -> Reply)
      ensures log == [] && this.reply == reply
    {
      log := [];
      this.reply := reply;
    }

    method Send(call: StorageCall) returns (r: Reply)
      modifies this
      ensures log == old(log) + [call] && r == reply(|old(log)|)
    {
      r := reply(|log|);
      log := log + [call];
    }

    method InitUpload(u: Uploader) returns (r: Reply)
      modifies this
      ensures log == old(log) + [Init(ToStr(u.bucket), ToStr(u.key))] && r == reply(|old(log)|)
    {
      r := Send(Init(ToStr(u.bucket), ToStr(u.key)));
    }

    method GeneratePresignedUrl(u: Uploader, partNumber: int, uploadId: string) returns (r: Reply)
      modifies this
      ensures log == old(log) + [PartUrl(ToStr(u.bucket), ToStr(u.key), partNumber, uploadId)]
      ensures r == reply(|old(log)|)
    {
      r := Send(PartUrl(ToStr(u.bucket), ToStr(u.key), partNumber, uploadId));
    }

    method CompleteUpload(u: Uploader, parts: seq<PartRef>, uploadId: Value) returns (r: Reply)
      modifies this
      ensures log == old(log) + [Complete(ToStr(u.bucket), ToStr(u.key), ToStr(uploadId), parts)]
      ensures r == reply(|old(log)|)
    {
      r := Send(Complete(ToStr(u.bucket), ToStr(u.key), ToStr(uploadId), parts));
    }

    method AbortUpload(u: Uploader, uploadId: Value) returns (r: Reply)
      modifies this
      ensures log == old(log) + [Abort(ToStr(u.bucket), ToStr(u.key), ToStr(uploadId))]
      ensures r == reply(|old(log)|)
    {
      r := Send(Abort(ToStr(u.bucket), ToStr(u.key), ToStr(uploadId)));
    }
  }
}
