/**
 * The durable store behind `backend/src/shared/utils/prisma.util.ts`: the `fileMetadata` table
 * keyed by `fileId` with a unique `s3Key`, and the `chunk` table keyed by `(fileId, chunkIndex)`.
 * The row operations are pure functions on `Tables` (`None` where Prisma refuses the operation:
 * a missing row for `delete`/`update`, a taken unique key for `create`); the class `Database` is
 * the client object the helpers mutate, with infrastructure failures drawn from an oracle.
 */
module Store {
  import opened Wrappers
  import opened Js

  /** FileStatus of the Prisma schema. COMPLETE is the string status "complete" that the older
      reconcilers write into the older `metadata` model, whose other columns used here coincide. */
  datatype FileStatus = PENDING | UPLOADING | UPLOADED | FAILED | COMPLETE

  datatype ChunkStatus = PENDING | COMPLETED | FAILED

  datatype FileRecord = FileRecord(
    fileId: string,
    fileName: string,
    mimeType: string,
    size: Option<int>,
    s3Key: string,
    status: FileStatus,
    userId: string)

  type ChunkKey = (string, int)

  datatype Chunk = Chunk(
    fileId: string,
    chunkIndex: int,
    size: int,
    s3Key: string,
    checksum: Option<string>,
    status: ChunkStatus)

  datatype Tables = Tables(files: map<string, FileRecord>, chunks: map<ChunkKey, Chunk>)

  /** What the schema's keys and unique constraints guarantee of every state of the tables. */
  ghost predicate Consistent(t: Tables) {
    && (forall id :: id in t.files ==> t.files[id].fileId == id)
    && (forall a, b :: a in t.files && b in t.files && a != b ==> t.files[a].s3Key != t.files[b].s3Key)
    && (forall k :: k in t.chunks ==> t.chunks[k].fileId == k.0 && t.chunks[k].chunkIndex == k.1)
  }

  predicate KeyTaken(t: Tables, s3Key: string) {
    exists id :: id in t.files && t.files[id].s3Key == s3Key
  }

  // ---------------------------------------------------------------------------------------
  // Row operations

  /** `fileMetadata.delete({where: {fileId}})`: refused when there is no such row. */
  function DeleteFile(t: Tables, id: string): (r: Option<Tables>)
    ensures r.Some? <==> id in t.files
    ensures r.Some? ==> r.value.chunks == t.chunks
    ensures r.Some? ==> forall k :: k in r.value.files <==> k in t.files && k != id
    ensures r.Some? ==> forall k :: k in r.value.files ==> r.value.files[k] == t.files[k]
  {
    if id in t.files then Some(t.(files := t.files - {id})) else None
  }

  /** `chunk.deleteMany({where: {fileId}})`: never refused, possibly deleting nothing. */
  function DeleteChunksOf(t: Tables, id: string): (r: Tables)
    ensures r.files == t.files
    ensures forall k :: k in r.chunks <==> k in t.chunks && k.0 != id
    ensures forall k :: k in r.chunks ==> r.chunks[k] == t.chunks[k]
  {
    t.(chunks := map k | k in t.chunks && k.0 != id :: t.chunks[k])
  }

  /** `fileMetadata.update({where: {fileId}, data: {status}})`. */
  function SetFileStatus(t: Tables, id: string, status: FileStatus): (r: Option<Tables>)
    ensures r.Some? <==> id in t.files
    ensures r.Some? ==> r.value.chunks == t.chunks && r.value.files.Keys == t.files.Keys
    ensures r.Some? ==> r.value.files[id] == t.files[id].(status := status)
    ensures r.Some? ==> forall k :: k in t.files && k != id ==> r.value.files[k] == t.files[k]
  {
    if id in t.files then Some(t.(files := t.files[id := t.files[id].(status := status)])) else None
  }

  /** `fileMetadata.create`: refused when the fileId or the s3Key is taken. */
  function CreateFile(t: Tables, rec: FileRecord): (r: Option<Tables>)
    ensures r.Some? <==> rec.fileId !in t.files && !KeyTaken(t, rec.s3Key)
    ensures r.Some? ==> r.value.chunks == t.chunks && r.value.files.Keys == t.files.Keys + {rec.fileId}
    ensures r.Some? ==> r.value.files[rec.fileId] == rec
    ensures r.Some? ==> forall k :: k in t.files ==> r.value.files[k] == t.files[k]
  {
    if rec.fileId in t.files || KeyTaken(t, rec.s3Key) then None
    else Some(t.(files := t.files[rec.fileId := rec]))
  }

  /** `chunk.create`: refused when `(fileId, chunkIndex)` is taken. */
  function CreateChunk(t: Tables, c: Chunk): (r: Option<Tables>)
    ensures r.Some? <==> (c.fileId, c.chunkIndex) !in t.chunks
    ensures r.Some? ==> r.value.files == t.files
    ensures r.Some? ==> r.value.chunks.Keys == t.chunks.Keys + {(c.fileId, c.chunkIndex)}
    ensures r.Some? ==> r.value.chunks[(c.fileId, c.chunkIndex)] == c
    ensures r.Some? ==> forall k :: k in t.chunks ==> r.value.chunks[k] == t.chunks[k]
  {
    var k := (c.fileId, c.chunkIndex);
    if k in t.chunks then None else Some(t.(chunks := t.chunks[k := c]))
  }

  /** `chunk.update` of exactly the `(fileId, chunkIndex)` row, with the given changes. */
  function UpdateChunkRow(t: Tables, k: ChunkKey, checksum: Option<string>, status: ChunkStatus): (r: Option<Tables>)
    ensures r.Some? <==> k in t.chunks
    ensures r.Some? ==> r.value.files == t.files && r.value.chunks.Keys == t.chunks.Keys
    ensures r.Some? ==> r.value.chunks[k] == t.chunks[k].(checksum := checksum, status := status)
    ensures r.Some? ==> forall j :: j in t.chunks && j != k ==> r.value.chunks[j] == t.chunks[j]
  {
    if k in t.chunks then Some(t.(chunks := t.chunks[k := t.chunks[k].(checksum := checksum, status := status)]))
    else None
  }

  /** `chunk.updateMany({where: {fileId}, data: {status: FAILED}})`. */
  function FailChunksOf(t: Tables, id: string): (r: Tables)
    ensures r.files == t.files && r.chunks.Keys == t.chunks.Keys
    ensures forall k :: k in t.chunks && k.0 == id ==> r.chunks[k] == t.chunks[k].(status := ChunkStatus.FAILED)
    ensures forall k :: k in t.chunks && k.0 != id ==> r.chunks[k] == t.chunks[k]
  {
    t.(chunks := map k | k in t.chunks :: if k.0 == id then t.chunks[k].(status := ChunkStatus.FAILED) else t.chunks[k])
  }

  /** What an update's data says about the `size` column: left alone, set, or given NaN
      (which Prisma refuses for an Int column). */
  datatype SizeField = Unset | SetSize(n: int) | NotANumber

  /** One row after an update of its status and size. */
  function Updated(rec: FileRecord, status: FileStatus, size: SizeField): FileRecord {
    rec.(status := status, size := if size.SetSize? then Some(size.n) else rec.size)
  }

  /** `fileMetadata.update({where: {s3Key}, data: {status, size?}})`: refused when no row has that
      key, or when the size is NaN. (The key is unique, so at most one row changes.) */
  function UpdateByKey(t: Tables, s3Key: string, status: FileStatus, size: SizeField): (r: Option<Tables>)
    ensures r.Some? <==> KeyTaken(t, s3Key) && !size.NotANumber?
    ensures r.Some? ==> r.value.chunks == t.chunks && r.value.files.Keys == t.files.Keys
    ensures r.Some? ==> forall k :: k in t.files ==>
      r.value.files[k] == if t.files[k].s3Key != s3Key then t.files[k] else Updated(t.files[k], status, size)
  {
    if size.NotANumber? || !KeyTaken(t, s3Key) then None
    else Some(t.(files := map k | k in t.files :: if t.files[k].s3Key != s3Key then t.files[k] else Updated(t.files[k], status, size)))
  }

  // ---------------------------------------------------------------------------------------
  // The row operations keep the tables consistent

  lemma CreateFileKeepsConsistent(t: Tables, rec: FileRecord)
    requires Consistent(t) && CreateFile(t, rec).Some?
    ensures Consistent(CreateFile(t, rec).value)
  {
    var r := CreateFile(t, rec).value;
    forall a, b | a in r.files && b in r.files && a != b
      ensures r.files[a].s3Key != r.files[b].s3Key
    {
      if a == rec.fileId {
        assert b in t.files;
      } else if b == rec.fileId {
        assert a in t.files;
      }
    }
  }

  lemma UpdateByKeyKeepsConsistent(t: Tables, s3Key: string, status: FileStatus, size: SizeField)
    requires Consistent(t) && UpdateByKey(t, s3Key, status, size).Some?
    ensures Consistent(UpdateByKey(t, s3Key, status, size).value)
  {
    var r := UpdateByKey(t, s3Key, status, size).value;
    assert forall k :: k in r.files ==> r.files[k].fileId == t.files[k].fileId && r.files[k].s3Key == t.files[k].s3Key;
  }

  lemma SetFileStatusKeepsConsistent(t: Tables, id: string, status: FileStatus)
    requires Consistent(t) && SetFileStatus(t, id, status).Some?
    ensures Consistent(SetFileStatus(t, id, status).value)
  {
  }

  lemma CreateChunkKeepsConsistent(t: Tables, c: Chunk)
    requires Consistent(t) && CreateChunk(t, c).Some?
    ensures Consistent(CreateChunk(t, c).value)
  {
  }

  /** Updating by key never creates a row, and applying the same change twice is the same as
      applying it once. */
  lemma UpdateByKeyIdempotent(t: Tables, s3Key: string, status: FileStatus, size: SizeField)
    requires UpdateByKey(t, s3Key, status, size).Some?
    ensures var t1 := UpdateByKey(t, s3Key, status, size).value;
      t1.files.Keys == t.files.Keys && UpdateByKey(t1, s3Key, status, size) == Some(t1)
  {
    var t1 := UpdateByKey(t, s3Key, status, size).value;
    var id :| id in t.files && t.files[id].s3Key == s3Key;
    assert t1.files[id].s3Key == s3Key;
    var t2 := UpdateByKey(t1, s3Key, status, size).value;
    assert t2.files == t1.files;
  }

  // ---------------------------------------------------------------------------------------
  // The client object

  /** The part of the store's state the rest of the model observes: the tables and how many
      calls it has served (the fault oracle is indexed by that count). */
  datatype DbState = DbState(tables: Tables, calls: nat)

  /** One call to the store: the n-th call fails when the fault oracle says so (an unreachable
      database, a timeout) or when the operation is refused; otherwise the tables become the
      operation's result. */
  function Run(fault: nat -> bool, s: DbState, next: Option<Tables>): (bool, DbState) {
    if fault(s.calls) || next.None? then (false, s.(calls := s.calls + 1))
    else (true, DbState(next.value, s.calls + 1))
  }

  /** A column value as Prisma validates it at run time: a string column accepts only a string. */
  function Column(v: Value): Option<string> {
    if v.Str? then Some(v.s) else None
  }

  /** An optional string column: null or undefined leave it empty. */
  function OptionalColumn(v: Value): Option<Option<string>> {
    if v.Undefined? || v.Null? then Some(None) else if v.Str? then Some(Some(v.s)) else None
  }

  function IntColumn(v: Value): Option<int> {
    if v.Num? then Some(v.n) else None
  }

  function CreateFileArgs(t: Tables, fileId: Value, fileName: Value, fileType: Value, fileSize: Value,
                          s3Key: Value, userId: Value): Option<Tables>
  {
    var size := ParseInt(ToStr(fileSize));
    if fileId.Str? && fileName.Str? && fileType.Str? && s3Key.Str? && userId.Str? && size.Some? then
      CreateFile(t, FileRecord(fileId.s, fileName.s, fileType.s, size, s3Key.s, FileStatus.UPLOADING, userId.s))
    else None
  }

  function CreateChunkArgs(t: Tables, fileId: Value, chunkIndex: Value, size: Option<int>, s3Key: Value,
                           etag: Value): Option<Tables>
  {
    if fileId.Str? && chunkIndex.Num? && size.Some? && s3Key.Str? && OptionalColumn(etag).Some? then
      CreateChunk(t, Chunk(fileId.s, chunkIndex.n, size.value, s3Key.s, OptionalColumn(etag).value, ChunkStatus.PENDING))
    else None
  }

  function DeleteFileArgs(t: Tables, id: Value): Option<Tables> {
    if id.Str? then DeleteFile(t, id.s) else None
  }

  function DeleteChunksArgs(t: Tables, id: Value): Option<Tables> {
    if id.Str? then Some(DeleteChunksOf(t, id.s)) else None
  }

  function SetFileStatusArgs(t: Tables, id: Value, status: FileStatus): Option<Tables> {
    if id.Str? then SetFileStatus(t, id.s, status) else None
  }

  function UpdateChunkArgs(t: Tables, fileId: Value, chunkIndex: Value, etag: Value): Option<Tables> {
    if fileId.Str? && chunkIndex.Num? && etag.Str?
    then UpdateChunkRow(t, (fileId.s, chunkIndex.n), Some(etag.s), ChunkStatus.COMPLETED)
    else None
  }

  function FailChunkArgs(t: Tables, fileId: Value, chunkIndex: Value): Option<Tables> {
    if fileId.Str? && chunkIndex.Num? && (fileId.s, chunkIndex.n) in t.chunks
    then UpdateChunkRow(t, (fileId.s, chunkIndex.n), t.chunks[(fileId.s, chunkIndex.n)].checksum, ChunkStatus.FAILED)
    else None
  }

  function FailChunksArgs(t: Tables, fileId: Value): Option<Tables> {
    if fileId.Str? then Some(FailChunksOf(t, fileId.s)) else None
  }

  class Database {
    var tables: Tables
    var calls: nat
    const fault: nat -> bool

    ghost predicate Valid()
      reads this
    {
      Consistent(tables)
    }

    function State(): DbState
      reads this
    {
      DbState(tables, calls)
    }

    constructor (tables: Tables, fault: nat -> bool)
      requires Consistent(tables)
      ensures Valid() && this.tables == tables && calls == 0 && this.fault == fault
    {
      this.tables := tables;
      this.calls := 0;
      this.fault := fault;
    }

    method Perform(next: Option<Tables>) returns (ok: bool)
      requires Valid() && (next.Some? ==> Consistent(next.value))
      modifies this
      ensures Valid()
      ensures (ok, State()) == Run(fault, old(State()), next)
    {
      ok := !fault(calls) && next.Some?;
      if ok {
        tables := next.value;
      }
      calls := calls + 1;
    }

    /** deleteFileMetadata: removes the row with that fileId and no other. */
    method DeleteFileMetadata(id: Value) returns (ok: bool)
      requires Valid()
      modifies this
      ensures Valid()
      ensures (ok, State()) == Run(fault, old(State()), DeleteFileArgs(old(tables), id))
    {
      ok := Perform(DeleteFileArgs(tables, id));
    }

    /** deleteChunks: removes every chunk of that fileId and no other. */
    method DeleteChunks(id: Value) returns (ok: bool)
      requires Valid()
      modifies this
      ensures Valid()
      ensures (ok, State()) == Run(fault, old(State()), DeleteChunksArgs(old(tables), id))
    {
      ok := Perform(DeleteChunksArgs(tables, id));
    }

    /** recordUploadedMetadata (imported by the controller as updateStatusFileMetadata). */
    method RecordUploadedMetadata(id: Value) returns (ok: bool)
      requires Valid()
      modifies this
      ensures Valid()
      ensures (ok, State()) == Run(fault, old(State()), SetFileStatusArgs(old(tables), id, FileStatus.UPLOADED))
    {
      if id.Str? && SetFileStatus(tables, id.s, FileStatus.UPLOADED).Some? {
        SetFileStatusKeepsConsistent(tables, id.s, FileStatus.UPLOADED);
      }
      ok := Perform(SetFileStatusArgs(tables, id, FileStatus.UPLOADED));
    }

    /** recordFailedMetadata. */
    method RecordFailedMetadata(id: Value) returns (ok: bool)
      requires Valid()
      modifies this
      ensures Valid()
      ensures (ok, State()) == Run(fault, old(State()), SetFileStatusArgs(old(tables), id, FileStatus.FAILED))
    {
      if id.Str? && SetFileStatus(tables, id.s, FileStatus.FAILED).Some? {
        SetFileStatusKeepsConsistent(tables, id.s, FileStatus.FAILED);
      }
      ok := Perform(SetFileStatusArgs(tables, id, FileStatus.FAILED));
    }

    /** createFileMetadata: one new row in status UPLOADING with `size = parseInt(file_size, 10)`. */
    method CreateFileMetadata(fileId: Value, fileName: Value, fileType: Value, fileSize: Value, s3Key: Value, userId: Value)
      returns (ok: bool)
      requires Valid()
      modifies this
      ensures Valid()
      ensures (ok, State()) == Run(fault, old(State()), CreateFileArgs(old(tables), fileId, fileName, fileType, fileSize, s3Key, userId))
    {
      var next := CreateFileArgs(tables, fileId, fileName, fileType, fileSize, s3Key, userId);
      if next.Some? {
        var size := ParseInt(ToStr(fileSize));
        CreateFileKeepsConsistent(tables, FileRecord(fileId.s, fileName.s, fileType.s, size, s3Key.s, FileStatus.UPLOADING, userId.s));
      }
      ok := Perform(next);
    }

    /** createPendingChunk (imported by the controller as createChunk): a new PENDING chunk keyed
        by `(fileId, chunkIndex)` whose checksum is the etag. */
    method CreatePendingChunk(fileId: Value, chunkIndex: Value, size: Option<int>, s3Key: Value, etag: Value)
      returns (ok: bool)
      requires Valid()
      modifies this
      ensures Valid()
      ensures (ok, State()) == Run(fault, old(State()), CreateChunkArgs(old(tables), fileId, chunkIndex, size, s3Key, etag))
    {
      var next := CreateChunkArgs(tables, fileId, chunkIndex, size, s3Key, etag);
      if next.Some? {
        CreateChunkKeepsConsistent(tables, Chunk(fileId.s, chunkIndex.n, size.value, s3Key.s, OptionalColumn(etag).value, ChunkStatus.PENDING));
      }
      ok := Perform(next);
    }

    /** updateChunk: checksum and status COMPLETED on exactly the `(fileId, chunkIndex)` row. */
    method UpdateChunk(fileId: Value, chunkIndex: Value, etag: Value) returns (ok: bool)
      requires Valid()
      modifies this
      ensures Valid()
      ensures (ok, State()) == Run(fault, old(State()), UpdateChunkArgs(old(tables), fileId, chunkIndex, etag))
    {
      ok := Perform(UpdateChunkArgs(tables, fileId, chunkIndex, etag));
    }

    /** recordFailedChunkOne: status FAILED on exactly one row. */
    method RecordFailedChunkOne(fileId: Value, chunkIndex: Value) returns (ok: bool)
      requires Valid()
      modifies this
      ensures Valid()
      ensures (ok, State()) == Run(fault, old(State()), FailChunkArgs(old(tables), fileId, chunkIndex))
    {
      ok := Perform(FailChunkArgs(tables, fileId, chunkIndex));
    }

    /** recordFailedChunkMany: status FAILED on every chunk of that fileId and no other. */
    method RecordFailedChunkMany(fileId: Value) returns (ok: bool)
      requires Valid()
      modifies this
      ensures Valid()
      ensures (ok, State()) == Run(fault, old(State()), FailChunksArgs(old(tables), fileId))
    {
      ok := Perform(FailChunksArgs(tables, fileId));
    }

    /** `fileMetadata.findUnique({where: {s3Key}})`: reads, changes no row. */
    method FindUniqueByS3Key(s3Key: string) returns (ok: bool, found: Option<FileRecord>)
      requires Valid()
      modifies this
      ensures Valid() && tables == old(tables) && calls == old(calls) + 1
      ensures ok == !fault(old(calls))
      ensures found.Some? <==> ok && KeyTaken(tables, s3Key)
      ensures found.Some? ==> found.value.fileId in tables.files && tables.files[found.value.fileId] == found.value
      ensures found.Some? ==> found.value.s3Key == s3Key
    {
      ok := !fault(calls);
      found := None;
      if ok && KeyTaken(tables, s3Key) {
        var id :| id in tables.files && tables.files[id].s3Key == s3Key;
        found := Some(tables.files[id]);
      }
      calls := calls + 1;
    }

    /** `fileMetadata.update({where: {s3Key}, ...})`. */
    method UpdateByS3Key(s3Key: string, status: FileStatus, size: SizeField) returns (ok: bool)
      requires Valid()
      modifies this
      ensures Valid()
      ensures (ok, State()) == Run(fault, old(State()), UpdateByKey(old(tables), s3Key, status, size))
    {
      if UpdateByKey(tables, s3Key, status, size).Some? {
        UpdateByKeyKeepsConsistent(tables, s3Key, status, size);
      }
      ok := Perform(UpdateByKey(tables, s3Key, status, size));
    }
  }
}
