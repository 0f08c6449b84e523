/**
 * `pollS3Events` of `backend/src/services/sqs-queue.service.ts`: the same start-up checks,
 * envelope handling, per-message loop and acknowledgement rules as the polling worker, over
 * the older `metadata` model, and writing the status "complete" instead of `UPLOADED`. The
 * service's copies of `tryParseJson`, `extractS3Records` and `decodeS3Key` coincide with the
 * shared ones and are not repeated here.
 */
module QueueService {
  import opened Wrappers
  import opened Js
  import opened Store
  import opened Reconciler
  import opened PollingWorker

  /** One turn of the service's polling loop, once the receive call has answered. */
  method ServicePoll(db: Database, queue: MessageQueue, parse: JsonParser, received: Option<seq<Message>>)
    returns (acks: seq<Ack>)
    requires db.Valid()
    modifies db, queue
    ensures db.Valid()
    ensures received.None? || received.value == [] ==>
      acks == [] && db.State() == old(db.State()) && queue.deleted == old(queue.deleted)
    ensures received.Some? && received.value != [] ==>
      (acks, db.State()) == BatchSpec(parse, db.fault, old(db.State()), COMPLETE, received.value) &&
      queue.deleted == old(queue.deleted) + DeletedHandles(received.value, acks)
  {
    acks := PollOnce(db, queue, parse, COMPLETE, received);
  }

  // ---------------------------------------------------------------------------------------
  // The service and the worker differ only in the status they write

  /** Two rows that agree on every column but the status. */
  predicate SameButStatus(a: FileRecord, b: FileRecord) {
    && a.fileId == b.fileId && a.fileName == b.fileName && a.mimeType == b.mimeType
    && a.size == b.size && a.s3Key == b.s3Key && a.userId == b.userId
  }

  predicate SameTablesUpToStatus(a: Tables, b: Tables) {
    && a.chunks == b.chunks && a.files.Keys == b.files.Keys
    && forall k :: k in a.files ==> SameButStatus(a.files[k], b.files[k])
  }

  /** Two stores that have served the same calls and hold the same rows up to their statuses. */
  predicate SameUpToStatus(a: DbState, b: DbState) {
    a.calls == b.calls && SameTablesUpToStatus(a.tables, b.tables)
  }

  lemma KeyTakenUpToStatus(a: Tables, b: Tables, s3Key: string)
    requires SameTablesUpToStatus(a, b)
    ensures KeyTaken(a, s3Key) <==> KeyTaken(b, s3Key)
  {
    if KeyTaken(a, s3Key) {
      var id :| id in a.files && a.files[id].s3Key == s3Key;
      assert SameButStatus(a.files[id], b.files[id]);
      assert b.files[id].s3Key == s3Key;
    }
    if KeyTaken(b, s3Key) {
      var id :| id in b.files && b.files[id].s3Key == s3Key;
      assert SameButStatus(a.files[id], b.files[id]);
      assert a.files[id].s3Key == s3Key;
    }
  }

  lemma UpdateByKeyUpToStatus(a: Tables, b: Tables, s3Key: string, st1: FileStatus, st2: FileStatus, size: SizeField)
    requires SameTablesUpToStatus(a, b) && UpdateByKey(a, s3Key, st1, size).Some?
    ensures UpdateByKey(b, s3Key, st2, size).Some?
    ensures SameTablesUpToStatus(UpdateByKey(a, s3Key, st1, size).value, UpdateByKey(b, s3Key, st2, size).value)
  {
    KeyTakenUpToStatus(a, b, s3Key);
    var a1, b1 := UpdateByKey(a, s3Key, st1, size).value, UpdateByKey(b, s3Key, st2, size).value;
    forall k | k in a1.files
      ensures SameButStatus(a1.files[k], b1.files[k])
    {
      assert k in a.files && k in b.files;
      RowUpToStatus(a.files[k], b.files[k], a1.files[k], b1.files[k], s3Key, st1, st2, size);
    }
  }

  lemma RowUpToStatus(a: FileRecord, b: FileRecord, a1: FileRecord, b1: FileRecord, s3Key: string,
                      st1: FileStatus, st2: FileStatus, size: SizeField)
    requires SameButStatus(a, b)
    requires a1 == if a.s3Key != s3Key then a else Updated(a, st1, size)
    requires b1 == if b.s3Key != s3Key then b else Updated(b, st2, size)
    ensures SameButStatus(a1, b1)
  {
  }

  /** The lookup and update of one key give the same outcome whatever status is written. */
  lemma LookupUpToStatus(fault: nat -> bool, a: DbState, b: DbState, st1: FileStatus, st2: FileStatus, s3Key: string, size: SizeField)
    requires SameUpToStatus(a, b)
    ensures var ra, rb := LookupAndUpdate(fault, a, st1, s3Key, size), LookupAndUpdate(fault, b, st2, s3Key, size);
      ra.0 == rb.0 && SameUpToStatus(ra.1, rb.1)
  {
    KeyTakenUpToStatus(a.tables, b.tables, s3Key);
    var ra, rb := LookupAndUpdate(fault, a, st1, s3Key, size), LookupAndUpdate(fault, b, st2, s3Key, size);
    if fault(a.calls) || !KeyTaken(a.tables, s3Key) || fault(a.calls + 1) || size.NotANumber? {
      assert ra.1.tables == a.tables && rb.1.tables == b.tables;
    } else {
      UpdateByKeyUpToStatus(a.tables, b.tables, s3Key, st1, st2, size);
      LookupUpdates(fault, a, st1, s3Key, size);
      LookupUpdates(fault, b, st2, s3Key, size);
    }
  }

  /** A record gets the same outcome whatever status is written, and the two stores stay the
      same up to statuses. */
  lemma ProcessUpToStatus(fault: nat -> bool, a: DbState, b: DbState, st1: FileStatus, st2: FileStatus, record: Value)
    requires SameUpToStatus(a, b)
    ensures var ra, rb := ProcessSpec(fault, a, st1, record), ProcessSpec(fault, b, st2, record);
      ra.0 == rb.0 && SameUpToStatus(ra.1, rb.1)
  {
    var rawKey := KeyOf(record);
    if Truthy(rawKey) && rawKey.Str? {
      ProcessLooksUp(fault, a, st1, record);
      ProcessLooksUp(fault, b, st2, record);
      LookupUpToStatus(fault, a, b, st1, st2, DecodeS3Key(rawKey.s), SizeFieldOf(SizeOf(record)));
    }
  }

  lemma {:induction false} RecordsUpToStatus(fault: nat -> bool, a: DbState, b: DbState, st1: FileStatus, st2: FileStatus, records: seq<Value>)
    requires SameUpToStatus(a, b)
    ensures var ra, rb := RecordsSpec(fault, a, st1, records), RecordsSpec(fault, b, st2, records);
      ra.0 == rb.0 && SameUpToStatus(ra.1, rb.1)
    decreases |records|
  {
    if records != [] {
      ProcessUpToStatus(fault, a, b, st1, st2, records[0]);
      var sa, sb := ProcessSpec(fault, a, st1, records[0]), ProcessSpec(fault, b, st2, records[0]);
      if sa.0 {
        RecordsUpToStatus(fault, sa.1, sb.1, st1, st2, records[1..]);
      }
    }
  }

  lemma MessageUpToStatus(parse: JsonParser, fault: nat -> bool, a: DbState, b: DbState, st1: FileStatus, st2: FileStatus, m: Message)
    requires SameUpToStatus(a, b)
    ensures var ra, rb := MessageSpec(parse, fault, a, st1, m), MessageSpec(parse, fault, b, st2, m);
      ra.0 == rb.0 && SameUpToStatus(ra.1, rb.1)
  {
    var parsed := TryParseJson(parse, m.body);
    if Truthy(parsed) && ExtractS3Records(parse, parsed) != [] {
      RecordsUpToStatus(fault, a, b, st1, st2, ExtractS3Records(parse, parsed));
    }
  }

  lemma {:induction false} BatchUpToStatus(parse: JsonParser, fault: nat -> bool, a: DbState, b: DbState, st1: FileStatus, st2: FileStatus, msgs: seq<Message>)
    requires SameUpToStatus(a, b)
    ensures var ra, rb := BatchSpec(parse, fault, a, st1, msgs), BatchSpec(parse, fault, b, st2, msgs);
      ra.0 == rb.0 && SameUpToStatus(ra.1, rb.1)
    decreases |msgs|
  {
    if msgs != [] {
      MessageUpToStatus(parse, fault, a, b, st1, st2, msgs[0]);
      var ma, mb := MessageSpec(parse, fault, a, st1, msgs[0]), MessageSpec(parse, fault, b, st2, msgs[0]);
      BatchUpToStatus(parse, fault, ma.1, mb.1, st1, st2, msgs[1..]);
    }
  }

  /** From the same store, the service and the polling worker acknowledge every message of a
      batch alike and leave stores that differ only in row statuses ("complete" against
      `UPLOADED`). */
  lemma ServiceActsLikeWorker(parse: JsonParser, fault: nat -> bool, s: DbState, msgs: seq<Message>)
    ensures var service, worker := BatchSpec(parse, fault, s, COMPLETE, msgs), BatchSpec(parse, fault, s, UPLOADED, msgs);
      service.0 == worker.0 && SameUpToStatus(service.1, worker.1)
  {
    assert SameUpToStatus(s, s) by {
      forall k | k in s.tables.files
        ensures SameButStatus(s.tables.files[k], s.tables.files[k])
      {
      }
    }
    BatchUpToStatus(parse, fault, s, s, COMPLETE, UPLOADED, msgs);
  }
}
