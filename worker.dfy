/**
 * The message handling of `pollS3Events` in `backend/src/workers/sqs-polling.worker.ts`: each
 * message received from the queue is parsed, its S3 records are extracted and applied one by
 * one with `processS3Record`, and the message is then deleted from the queue or left there to
 * be delivered again. The receive call, the endless loop around it and its back-off are I/O
 * and timing; what one batch of received messages does to the store and the queue is modelled.
 */
module PollingWorker {
  import opened Wrappers
  import opened Js
  import opened Store
  import opened Reconciler
  import opened Sequences

  /** What happens to a message: `deleteMessage` is called on it, or it stays in the queue. */
  datatype Ack = Delete | Keep

  /** A received message: its body (absent when SQS sends none) and its receipt handle. */
  datatype Message = Message(body: Option<string>, receiptHandle: string)

  /** The start-up checks: which of the access test and the polling loop are reached, for a
      configured queue URL (absent when the variable is unset) and the access test's answer. */
  datatype Startup = Startup(accessTested: bool, polling: bool)

  function StartupSpec(queueUrl: Option<string>, hasAccess: bool): (r: Startup)
    ensures r.polling ==> r.accessTested && hasAccess
    ensures r.accessTested <==> queueUrl.Some? && queueUrl.value != ""
    ensures r.accessTested && hasAccess ==> r.polling
  {
    if queueUrl.None? || queueUrl.value == "" then Startup(false, false)
    else if !hasAccess then Startup(true, false)
    else Startup(true, true)
  }

  // ---------------------------------------------------------------------------------------
  // One message

  /** The records of one message, in list order; the first one that throws ends the loop, and
      `false` says that the exception reached the message's `catch`. */
  function RecordsSpec(fault: nat -> bool, s: DbState, status: FileStatus, records: seq<Value>): (r: (bool, DbState))
    ensures r.1.tables.chunks == s.tables.chunks && r.1.tables.files.Keys == s.tables.files.Keys
    decreases |records|
  {
    if records == [] then (true, s)
    else
      var step := ProcessSpec(fault, s, status, records[0]);
      if !step.0 then step else RecordsSpec(fault, step.1, status, records[1..])
  }

  /** One message: an unparseable (or falsy) body and a body without records are deleted
      untouched; otherwise the message is deleted only when every record was processed. */
  function MessageSpec(parse: JsonParser, fault: nat -> bool, s: DbState, status: FileStatus, m: Message): (r: (Ack, DbState))
    ensures r.1.tables.chunks == s.tables.chunks && r.1.tables.files.Keys == s.tables.files.Keys
    ensures !Truthy(TryParseJson(parse, m.body)) ==> r == (Ack.Delete, s)
  {
    var parsed := TryParseJson(parse, m.body);
    if !Truthy(parsed) then (Delete, s)
    else
      var records := ExtractS3Records(parse, parsed);
      if records == [] then (Delete, s)
      else
        var outcome := RecordsSpec(fault, s, status, records);
        (if outcome.0 then Delete else Keep, outcome.1)
  }

  /** A batch of messages, in order: every message is handled, whatever happened to the ones
      before it. */
  function BatchSpec(parse: JsonParser, fault: nat -> bool, s: DbState, status: FileStatus, msgs: seq<Message>): (r: (seq<Ack>, DbState))
    ensures |r.0| == |msgs|
    ensures r.1.tables.chunks == s.tables.chunks && r.1.tables.files.Keys == s.tables.files.Keys
    decreases |msgs|
  {
    if msgs == [] then ([], s)
    else
      var first := MessageSpec(parse, fault, s, status, msgs[0]);
      var rest := BatchSpec(parse, fault, first.1, status, msgs[1..]);
      ([first.0] + rest.0, rest.1)
  }

  /** The receipt handles passed to `deleteMessage`, in order. */
  function DeletedHandles(msgs: seq<Message>, acks: seq<Ack>): (handles: seq<string>)
    requires |msgs| == |acks|
    ensures |handles| <= |msgs|
    decreases |msgs|
  {
    if msgs == [] then []
    else
      var n := |msgs| - 1;
      DeletedHandles(msgs[..n], acks[..n]) + (if acks[n] == Delete then [msgs[n].receiptHandle] else [])
  }

  // ---------------------------------------------------------------------------------------
  // The queue and the loop

  /** The queue as the worker changes it: the receipt handles of the deletions it requested
      (`deleteMessage` logs and swallows its own failures). */
  class MessageQueue {
    var deleted: seq<string>

    constructor ()
      ensures deleted == []
    {
      deleted := [];
    }

    method DeleteMessage(receiptHandle: string)
      modifies this
      ensures deleted == old(deleted) + [receiptHandle]
    {
      deleted := deleted + [receiptHandle];
    }
  }

  /** `for (const record of records) await processS3Record(record, ...)`. */
  method HandleRecords(db: Database, status: FileStatus, records: seq<Value>) returns (ok: bool)
    requires db.Valid()
    modifies db
    ensures db.Valid()
    ensures (ok, db.State()) == RecordsSpec(db.fault, old(db.State()), status, records)
  {
    ok := true;
    var i := 0;
    while i < |records| && ok
      invariant 0 <= i <= |records|
      invariant db.Valid()
      invariant RecordsSpec(db.fault, old(db.State()), status, records) ==
        if ok then RecordsSpec(db.fault, db.State(), status, records[i..]) else (false, db.State())
    {
      DropTail(records, i);
      ok := ProcessS3Record(db, status, records[i]);
      i := i + 1;
    }
  }

  /** The body of `for (const msg of Messages)`. */
  method HandleMessage(db: Database, queue: MessageQueue, parse: JsonParser, status: FileStatus, m: Message)
    returns (ack: Ack)
    requires db.Valid()
    modifies db, queue
    ensures db.Valid()
    ensures (ack, db.State()) == MessageSpec(parse, db.fault, old(db.State()), status, m)
    ensures queue.deleted == old(queue.deleted) + (if ack == Delete then [m.receiptHandle] else [])
  {
    var parsed := TryParseJson(parse, m.body);
    if !Truthy(parsed) {
      queue.DeleteMessage(m.receiptHandle);
      return Delete;
    }
    var records := ExtractS3Records(parse, parsed);
    if records == [] {
      if IsTestEvent(parsed) {
        queue.DeleteMessage(m.receiptHandle);
        return Delete;
      }
      queue.DeleteMessage(m.receiptHandle);
      return Delete;
    }
    var ok := HandleRecords(db, status, records);
    if ok {
      queue.DeleteMessage(m.receiptHandle);
      ack := Delete;
    } else {
      ack := Keep;
    }
  }

  /** One batch of received messages, handled in order. */
  method HandleBatch(db: Database, queue: MessageQueue, parse: JsonParser, status: FileStatus, msgs: seq<Message>)
    returns (acks: seq<Ack>)
    requires db.Valid()
    modifies db, queue
    ensures db.Valid()
    ensures (acks, db.State()) == BatchSpec(parse, db.fault, old(db.State()), status, msgs)
    ensures queue.deleted == old(queue.deleted) + DeletedHandles(msgs, acks)
  {
    acks := [];
    ghost var s0 := db.State();
    for i := 0 to |msgs|
      invariant db.Valid()
      invariant |acks| == i
      invariant BatchSpec(parse, db.fault, s0, status, msgs[..i]) == (acks, db.State())
      invariant queue.deleted == old(queue.deleted) + DeletedHandles(msgs[..i], acks)
    {
      acks := HandleNext(db, queue, parse, status, msgs, acks, s0, old(queue.deleted));
    }
    TakeAll(msgs);
  }

  /** One turn of the batch loop: message `|acks|` is handled after the ones before it. */
  method HandleNext(db: Database, queue: MessageQueue, parse: JsonParser, status: FileStatus, msgs: seq<Message>,
                    acks: seq<Ack>, ghost s0: DbState, ghost deleted0: seq<string>)
    returns (acks': seq<Ack>)
    requires db.Valid() && |acks| < |msgs|
    requires BatchSpec(parse, db.fault, s0, status, msgs[..|acks|]) == (acks, db.State())
    requires queue.deleted == deleted0 + DeletedHandles(msgs[..|acks|], acks)
    modifies db, queue
    ensures db.Valid() && |acks'| == |acks| + 1
    ensures BatchSpec(parse, db.fault, s0, status, msgs[..|acks'|]) == (acks', db.State())
    ensures queue.deleted == deleted0 + DeletedHandles(msgs[..|acks'|], acks')
  {
    var i := |acks|;
    var ack := HandleMessage(db, queue, parse, status, msgs[i]);
    BatchSnoc(parse, db.fault, s0, status, msgs, i);
    DeletedHandlesSnoc(msgs, acks, ack);
    AppendAssoc(deleted0, DeletedHandles(msgs[..i], acks), if ack == Delete then [msgs[i].receiptHandle] else []);
    acks' := acks + [ack];
  }

  /** The batch up to message `i` is the batch before it followed by message `i`. */
  lemma BatchSnoc(parse: JsonParser, fault: nat -> bool, s: DbState, status: FileStatus, msgs: seq<Message>, i: nat)
    requires i < |msgs|
    ensures var before := BatchSpec(parse, fault, s, status, msgs[..i]);
      var last := MessageSpec(parse, fault, before.1, status, msgs[i]);
      BatchSpec(parse, fault, s, status, msgs[..i + 1]) == (before.0 + [last.0], last.1)
  {
    BatchAppend(parse, fault, s, status, msgs[..i], [msgs[i]]);
    TakeSnoc(msgs, i);
    var before := BatchSpec(parse, fault, s, status, msgs[..i]);
    BatchSingle(parse, fault, before.1, status, msgs[i]);
  }

  lemma DeletedHandlesSnoc(msgs: seq<Message>, acks: seq<Ack>, ack: Ack)
    requires |acks| < |msgs|
    ensures var i := |acks|;
      DeletedHandles(msgs[..i + 1], acks + [ack]) ==
        DeletedHandles(msgs[..i], acks) + (if ack == Delete then [msgs[i].receiptHandle] else [])
  {
    var i := |acks|;
    TakeLast(msgs, i);
    SnocTake(acks, ack);
    var m1, a1 := msgs[..i + 1], acks + [ack];
    assert DeletedHandles(m1, a1) ==
      DeletedHandles(m1[..i], a1[..i]) + (if a1[i] == Delete then [m1[i].receiptHandle] else []);
  }

  lemma BatchSingle(parse: JsonParser, fault: nat -> bool, s: DbState, status: FileStatus, m: Message)
    ensures var r := MessageSpec(parse, fault, s, status, m);
      BatchSpec(parse, fault, s, status, [m]) == ([r.0], r.1)
  {
    assert [m][1..] == [];
    AppendEmpty([MessageSpec(parse, fault, s, status, m).0], []);
  }

  /** One turn of the `while (true)` loop once the receive call has answered: no messages (or
      no `Messages` field) means nothing happens until the next receive. */
  method PollOnce(db: Database, queue: MessageQueue, parse: JsonParser, status: FileStatus, received: Option<seq<Message>>)
    returns (acks: seq<Ack>)
    requires db.Valid()
    modifies db, queue
    ensures db.Valid()
    ensures received.None? || received.value == [] ==>
      acks == [] && db.State() == old(db.State()) && queue.deleted == old(queue.deleted)
    ensures received.Some? && received.value != [] ==>
      (acks, db.State()) == BatchSpec(parse, db.fault, old(db.State()), status, received.value) &&
      queue.deleted == old(queue.deleted) + DeletedHandles(received.value, acks)
  {
    if received.None? || received.value == [] {
      return [];
    }
    acks := HandleBatch(db, queue, parse, status, received.value);
  }

  // ---------------------------------------------------------------------------------------
  // Properties

  /** Records are processed in list order: processing `a + b` is processing `a`, then, if no
      record of `a` threw, processing `b` from where `a` left the store. */
  lemma {:induction false} RecordsAppend(fault: nat -> bool, s: DbState, status: FileStatus, a: seq<Value>, b: seq<Value>)
    ensures var first := RecordsSpec(fault, s, status, a);
      RecordsSpec(fault, s, status, a + b) == if first.0 then RecordsSpec(fault, first.1, status, b) else first
    decreases |a|
  {
    if a == [] {
      AppendEmpty(a, b);
    } else {
      var step := ProcessSpec(fault, s, status, a[0]);
      AppendHeadTail(a, b);
      if step.0 {
        RecordsAppend(fault, step.1, status, a[1..], b);
      }
    }
  }

  lemma RecordsSingle(fault: nat -> bool, s: DbState, status: FileStatus, record: Value)
    ensures RecordsSpec(fault, s, status, [record]) == ProcessSpec(fault, s, status, record)
  {
    assert [record][1..] == [];
  }

  /** The store a message's records leave after the first `i` of them. */
  function StateBefore(fault: nat -> bool, s: DbState, status: FileStatus, records: seq<Value>, i: nat): (t: DbState)
    requires i <= |records|
  {
    RecordsSpec(fault, s, status, records[..i]).1
  }

  /** The records of a message all go through exactly when each one, applied to the store the
      earlier ones left, returns without throwing. */
  lemma {:induction false} RecordsAllSucceed(fault: nat -> bool, s: DbState, status: FileStatus, records: seq<Value>)
    ensures RecordsSpec(fault, s, status, records).0 <==>
      forall i :: 0 <= i < |records| ==> ProcessSpec(fault, StateBefore(fault, s, status, records, i), status, records[i]).0
    decreases |records|
  {
    if records != [] {
      var n := |records| - 1;
      var init := records[..n];
      RecordsAllSucceed(fault, s, status, init);
      RecordsAppend(fault, s, status, init, [records[n]]);
      TakeSnoc(records, n);
      TakeAll(records);
      RecordsSingle(fault, RecordsSpec(fault, s, status, init).1, status, records[n]);
      forall i | 0 <= i < n
        ensures StateBefore(fault, s, status, records, i) == StateBefore(fault, s, status, init, i)
      {
        TakeOfTake(records, i, n);
      }
      if !RecordsSpec(fault, s, status, init).0 {
        var j :| 0 <= j < n && !ProcessSpec(fault, StateBefore(fault, s, status, init, j), status, init[j]).0;
        assert init[j] == records[j];
      }
    }
  }

  /** A message is deleted exactly when its body is unparseable, yields no records, or every
      one of its records is processed without an exception; otherwise it stays in the queue
      to be delivered again. */
  lemma MessageDeletedIff(parse: JsonParser, fault: nat -> bool, s: DbState, status: FileStatus, m: Message)
    ensures var parsed := TryParseJson(parse, m.body);
      var records := ExtractS3Records(parse, parsed);
      MessageSpec(parse, fault, s, status, m).0 == Ack.Delete <==>
        || !Truthy(parsed)
        || records == []
        || forall i :: 0 <= i < |records| ==> ProcessSpec(fault, StateBefore(fault, s, status, records, i), status, records[i]).0
  {
    var parsed := TryParseJson(parse, m.body);
    RecordsAllSucceed(fault, s, status, ExtractS3Records(parse, parsed));
  }

  /** A message without records (an S3 test event, or an unknown shape) is deleted and
      changes nothing. */
  lemma MessageWithoutRecords(parse: JsonParser, fault: nat -> bool, s: DbState, status: FileStatus, m: Message)
    requires Truthy(TryParseJson(parse, m.body)) && ExtractS3Records(parse, TryParseJson(parse, m.body)) == []
    ensures MessageSpec(parse, fault, s, status, m) == (Ack.Delete, s)
  {
  }

  /** Handling `a + b` handles `a`, then `b` from where `a` left the store: a message that is
      kept does not stop the rest of the batch. */
  lemma {:induction false} BatchAppend(parse: JsonParser, fault: nat -> bool, s: DbState, status: FileStatus, a: seq<Message>, b: seq<Message>)
    ensures var first := BatchSpec(parse, fault, s, status, a);
      var rest := BatchSpec(parse, fault, first.1, status, b);
      BatchSpec(parse, fault, s, status, a + b) == (first.0 + rest.0, rest.1)
    decreases |a|
  {
    if a == [] {
      AppendEmpty(a, b);
      var rest := BatchSpec(parse, fault, s, status, b).0;
      AppendEmpty(rest, rest);
    } else {
      var m := MessageSpec(parse, fault, s, status, a[0]);
      AppendHeadTail(a, b);
      BatchAppend(parse, fault, m.1, status, a[1..], b);
      var tail := BatchSpec(parse, fault, m.1, status, a[1..]);
      var rest := BatchSpec(parse, fault, tail.1, status, b);
      AppendAssoc([m.0], tail.0, rest.0);
    }
  }

  /** The i-th acknowledgement is what the i-th message alone gets from the store the earlier
      messages left. */
  lemma BatchAckOfMessage(parse: JsonParser, fault: nat -> bool, s: DbState, status: FileStatus, msgs: seq<Message>, i: nat)
    requires i < |msgs|
    ensures var before := BatchSpec(parse, fault, s, status, msgs[..i]).1;
      BatchSpec(parse, fault, s, status, msgs).0[i] == MessageSpec(parse, fault, before, status, msgs[i]).0
  {
    BatchAppend(parse, fault, s, status, msgs[..i + 1], msgs[i + 1..]);
    Split(msgs, i + 1);
    BatchSnoc(parse, fault, s, status, msgs, i);
  }

  /** A message's receipt handle is passed to `deleteMessage` exactly when it is acknowledged
      with `Delete` (for distinct receipt handles). */
  lemma {:induction false} DeletedHandlesOfAcks(msgs: seq<Message>, acks: seq<Ack>, i: nat)
    requires |msgs| == |acks| && i < |msgs|
    requires forall j, k :: 0 <= j < k < |msgs| ==> msgs[j].receiptHandle != msgs[k].receiptHandle
    ensures msgs[i].receiptHandle in DeletedHandles(msgs, acks) <==> acks[i] == Delete
    decreases |msgs|
  {
    var n := |msgs| - 1;
    HandlesAmong(msgs[..n], acks[..n]);
    if i < n {
      DeletedHandlesOfAcks(msgs[..n], acks[..n], i);
      assert msgs[i].receiptHandle != msgs[n].receiptHandle;
    } else {
      assert msgs[n].receiptHandle !in DeletedHandles(msgs[..n], acks[..n]);
    }
  }

  /** Every handle passed to `deleteMessage` belongs to one of the messages. */
  lemma {:induction false} HandlesAmong(msgs: seq<Message>, acks: seq<Ack>)
    requires |msgs| == |acks|
    ensures forall h :: h in DeletedHandles(msgs, acks) ==> exists j :: 0 <= j < |msgs| && msgs[j].receiptHandle == h
    decreases |msgs|
  {
    if msgs != [] {
      var n := |msgs| - 1;
      HandlesAmong(msgs[..n], acks[..n]);
      forall h | h in DeletedHandles(msgs, acks)
        ensures exists j :: 0 <= j < |msgs| && msgs[j].receiptHandle == h
      {
        if h in DeletedHandles(msgs[..n], acks[..n]) {
          var j :| 0 <= j < n && msgs[..n][j].receiptHandle == h;
          assert msgs[j].receiptHandle == h;
        } else {
          assert msgs[n].receiptHandle == h;
        }
      }
    }
  }

  // ---------------------------------------------------------------------------------------
  // What the worker may change

  /** A row after reconciliation: untouched, or given the written status (and possibly a new
      size) with every other column as it was. */
  predicate RowWritten(before: FileRecord, after: FileRecord, status: FileStatus) {
    after == before || after == before.(status := status, size := after.size)
  }

  predicate WrittenOnly(a: Tables, b: Tables, status: FileStatus) {
    && a.files.Keys == b.files.Keys && a.chunks == b.chunks
    && forall k :: k in a.files ==> RowWritten(a.files[k], b.files[k], status)
  }

  lemma WrittenOnlyTrans(a: Tables, b: Tables, c: Tables, status: FileStatus)
    requires WrittenOnly(a, b, status) && WrittenOnly(b, c, status)
    ensures WrittenOnly(a, c, status)
  {
    forall k | k in a.files
      ensures RowWritten(a.files[k], c.files[k], status)
    {
      assert RowWritten(a.files[k], b.files[k], status) && RowWritten(b.files[k], c.files[k], status);
    }
  }

  /** One record changes at most the status and size of rows, and writes only `status`. */
  lemma ProcessWritesOnly(fault: nat -> bool, s: DbState, status: FileStatus, record: Value)
    ensures WrittenOnly(s.tables, ProcessSpec(fault, s, status, record).1.tables, status)
  {
    var t := ProcessSpec(fault, s, status, record).1.tables;
    forall k | k in s.tables.files
      ensures RowWritten(s.tables.files[k], t.files[k], status)
    {
    }
  }

  lemma {:induction false} RecordsWriteOnly(fault: nat -> bool, s: DbState, status: FileStatus, records: seq<Value>)
    ensures WrittenOnly(s.tables, RecordsSpec(fault, s, status, records).1.tables, status)
    decreases |records|
  {
    if records == [] {
    } else {
      var step := ProcessSpec(fault, s, status, records[0]);
      ProcessWritesOnly(fault, s, status, records[0]);
      if step.0 {
        RecordsWriteOnly(fault, step.1, status, records[1..]);
        WrittenOnlyTrans(s.tables, step.1.tables, RecordsSpec(fault, step.1, status, records[1..]).1.tables, status);
      }
    }
  }

  /** A whole batch creates and removes no row, touches no chunk, and changes a row only by
      giving it the written status (and the size the event reports). */
  lemma {:induction false} BatchWritesOnly(parse: JsonParser, fault: nat -> bool, s: DbState, status: FileStatus, msgs: seq<Message>)
    ensures WrittenOnly(s.tables, BatchSpec(parse, fault, s, status, msgs).1.tables, status)
    decreases |msgs|
  {
    if msgs == [] {
    } else {
      var first := MessageSpec(parse, fault, s, status, msgs[0]);
      var parsed := TryParseJson(parse, msgs[0].body);
      if Truthy(parsed) && ExtractS3Records(parse, parsed) != [] {
        RecordsWriteOnly(fault, s, status, ExtractS3Records(parse, parsed));
      }
      BatchWritesOnly(parse, fault, first.1, status, msgs[1..]);
      WrittenOnlyTrans(s.tables, first.1.tables, BatchSpec(parse, fault, first.1, status, msgs[1..]).1.tables, status);
    }
  }
}
