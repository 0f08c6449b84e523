/**
 * `pollS3Events` of `backend/src/utils/poll-sqs-events.util.ts`, the oldest reconciler: no
 * access test, no S3 test-event branch, an unparseable body is skipped without being deleted,
 * each record updates its row by key directly (no lookup first) with the status "complete",
 * and a failing update is logged and swallowed. Its copies of `tryParseJson` and
 * `decodeS3Key` coincide with the shared ones; its `extractS3Records` is the shared envelope
 * reader without the test-event check.
 */
module LegacyPoller {
  import opened Wrappers
  import opened Js
  import opened Store
  import opened Reconciler
  import opened PollingWorker
  import Sequences

  /** Whether reading the key of a record goes through: a falsy key is skipped, a string is
      decoded, and any other value throws in `rawKey.replace`. */
  predicate KeyReadable(record: Value) {
    !Truthy(KeyOf(record)) || KeyOf(record).Str?
  }

  /** The body of the inner `for (const record of records)`: `false` when it throws (the
      exception leaves the loop for the message's `catch`). The update's own failure is
      swallowed: the loop goes on either way. */
  function LegacyStep(fault: nat -> bool, s: DbState, record: Value): (r: (bool, DbState))
    ensures r.0 <==> KeyReadable(record)
    ensures r.1.tables.chunks == s.tables.chunks && r.1.tables.files.Keys == s.tables.files.Keys
  {
    var rawKey := KeyOf(record);
    if !Truthy(rawKey) then (true, s)
    else if !rawKey.Str? then (false, s)
    else (true, Run(fault, s, UpdateByKey(s.tables, DecodeS3Key(rawKey.s), COMPLETE, SizeFieldOf(SizeOf(record)))).1)
  }

  function LegacyRecordsSpec(fault: nat -> bool, s: DbState, records: seq<Value>): (r: (bool, DbState))
    ensures r.1.tables.chunks == s.tables.chunks && r.1.tables.files.Keys == s.tables.files.Keys
    decreases |records|
  {
    if records == [] then (true, s)
    else
      var step := LegacyStep(fault, s, records[0]);
      if !step.0 then step else LegacyRecordsSpec(fault, step.1, records[1..])
  }

  /** One message: an unparseable body stays in the queue; a body without records is deleted;
      otherwise the message is deleted unless reading a key threw. */
  function LegacyMessageSpec(parse: JsonParser, fault: nat -> bool, s: DbState, m: Message): (r: (Ack, DbState))
    ensures r.1.tables.chunks == s.tables.chunks && r.1.tables.files.Keys == s.tables.files.Keys
  {
    var parsed := TryParseJson(parse, m.body);
    if !Truthy(parsed) then (Keep, s)
    else
      var records := ExtractFromEnvelope(parse, parsed);
      if records == [] then (Delete, s)
      else
        var outcome := LegacyRecordsSpec(fault, s, records);
        (if outcome.0 then Delete else Keep, outcome.1)
  }

  function LegacyBatchSpec(parse: JsonParser, fault: nat -> bool, s: DbState, msgs: seq<Message>): (r: (seq<Ack>, DbState))
    ensures |r.0| == |msgs|
    decreases |msgs|
  {
    if msgs == [] then ([], s)
    else
      var first := LegacyMessageSpec(parse, fault, s, msgs[0]);
      var rest := LegacyBatchSpec(parse, fault, first.1, msgs[1..]);
      ([first.0] + rest.0, rest.1)
  }

  // ---------------------------------------------------------------------------------------
  // The loops

  method LegacyHandleRecords(db: Database, records: seq<Value>) returns (ok: bool)
    requires db.Valid()
    modifies db
    ensures db.Valid()
    ensures (ok, db.State()) == LegacyRecordsSpec(db.fault, old(db.State()), records)
  {
    ok := true;
    var i := 0;
    while i < |records| && ok
      invariant 0 <= i <= |records|
      invariant db.Valid()
      invariant LegacyRecordsSpec(db.fault, old(db.State()), records) ==
        if ok then LegacyRecordsSpec(db.fault, db.State(), records[i..]) else (false, db.State())
    {
      Sequences.DropTail(records, i);
      var rawKey := KeyOf(records[i]);
      if !Truthy(rawKey) {
      } else if !rawKey.Str? {
        ok := false;
      } else {
        var _ := db.UpdateByS3Key(DecodeS3Key(rawKey.s), COMPLETE, SizeFieldOf(SizeOf(records[i])));
      }
      i := i + 1;
    }
  }

  method LegacyHandleMessage(db: Database, queue: MessageQueue, parse: JsonParser, m: Message) returns (ack: Ack)
    requires db.Valid()
    modifies db, queue
    ensures db.Valid()
    ensures (ack, db.State()) == LegacyMessageSpec(parse, db.fault, old(db.State()), m)
    ensures queue.deleted == old(queue.deleted) + (if ack == Delete then [m.receiptHandle] else [])
  {
    var parsed := TryParseJson(parse, m.body);
    if !Truthy(parsed) {
      return Keep;
    }
    var records := ExtractFromEnvelope(parse, parsed);
    if records == [] {
      queue.DeleteMessage(m.receiptHandle);
      return Delete;
    }
    var ok := LegacyHandleRecords(db, records);
    if ok {
      queue.DeleteMessage(m.receiptHandle);
      ack := Delete;
    } else {
      ack := Keep;
    }
  }

  method LegacyHandleBatch(db: Database, queue: MessageQueue, parse: JsonParser, msgs: seq<Message>)
    returns (acks: seq<Ack>)
    requires db.Valid()
    modifies db, queue
    ensures db.Valid()
    ensures (acks, db.State()) == LegacyBatchSpec(parse, db.fault, old(db.State()), msgs)
    ensures queue.deleted == old(queue.deleted) + DeletedHandles(msgs, acks)
  {
    acks := [];
    ghost var s0 := db.State();
    for i := 0 to |msgs|
      invariant db.Valid()
      invariant |acks| == i
      invariant LegacyBatchSpec(parse, db.fault, s0, msgs[..i]) == (acks, db.State())
      invariant queue.deleted == old(queue.deleted) + DeletedHandles(msgs[..i], acks)
    {
      acks := LegacyHandleNext(db, queue, parse, msgs, acks, s0, old(queue.deleted));
    }
    Sequences.TakeAll(msgs);
  }

  method LegacyHandleNext(db: Database, queue: MessageQueue, parse: JsonParser, msgs: seq<Message>,
                          acks: seq<Ack>, ghost s0: DbState, ghost deleted0: seq<string>)
    returns (acks': seq<Ack>)
    requires db.Valid() && |acks| < |msgs|
    requires LegacyBatchSpec(parse, db.fault, s0, msgs[..|acks|]) == (acks, db.State())
    requires queue.deleted == deleted0 + DeletedHandles(msgs[..|acks|], acks)
    modifies db, queue
    ensures db.Valid() && |acks'| == |acks| + 1
    ensures LegacyBatchSpec(parse, db.fault, s0, msgs[..|acks'|]) == (acks', db.State())
    ensures queue.deleted == deleted0 + DeletedHandles(msgs[..|acks'|], acks')
  {
    var i := |acks|;
    var ack := LegacyHandleMessage(db, queue, parse, msgs[i]);
    LegacyBatchSnoc(parse, db.fault, s0, msgs, i);
    DeletedHandlesSnoc(msgs, acks, ack);
    Sequences.AppendAssoc(deleted0, DeletedHandles(msgs[..i], acks), if ack == Delete then [msgs[i].receiptHandle] else []);
    acks' := acks + [ack];
  }

  /** One turn of the legacy polling loop once the receive call has answered. */
  method LegacyPoll(db: Database, queue: MessageQueue, parse: JsonParser, received: Option<seq<Message>>)
    returns (acks: seq<Ack>)
    requires db.Valid()
    modifies db, queue
    ensures db.Valid()
    ensures received.None? || received.value == [] ==>
      acks == [] && db.State() == old(db.State()) && queue.deleted == old(queue.deleted)
    ensures received.Some? && received.value != [] ==>
      (acks, db.State()) == LegacyBatchSpec(parse, db.fault, old(db.State()), received.value) &&
      queue.deleted == old(queue.deleted) + DeletedHandles(received.value, acks)
  {
    if received.None? || received.value == [] {
      return [];
    }
    acks := LegacyHandleBatch(db, queue, parse, received.value);
  }

  lemma {:induction false} LegacyBatchAppend(parse: JsonParser, fault: nat -> bool, s: DbState, a: seq<Message>, b: seq<Message>)
    ensures var first := LegacyBatchSpec(parse, fault, s, a);
      var rest := LegacyBatchSpec(parse, fault, first.1, b);
      LegacyBatchSpec(parse, fault, s, a + b) == (first.0 + rest.0, rest.1)
    decreases |a|
  {
    if a == [] {
      Sequences.AppendEmpty(a, b);
      var rest := LegacyBatchSpec(parse, fault, s, b).0;
      Sequences.AppendEmpty(rest, rest);
    } else {
      var m := LegacyMessageSpec(parse, fault, s, a[0]);
      Sequences.AppendHeadTail(a, b);
      LegacyBatchAppend(parse, fault, m.1, a[1..], b);
      var tail := LegacyBatchSpec(parse, fault, m.1, a[1..]);
      var rest := LegacyBatchSpec(parse, fault, tail.1, b);
      Sequences.AppendAssoc([m.0], tail.0, rest.0);
    }
  }

  lemma LegacyBatchSnoc(parse: JsonParser, fault: nat -> bool, s: DbState, msgs: seq<Message>, i: nat)
    requires i < |msgs|
    ensures var before := LegacyBatchSpec(parse, fault, s, msgs[..i]);
      var last := LegacyMessageSpec(parse, fault, before.1, msgs[i]);
      LegacyBatchSpec(parse, fault, s, msgs[..i + 1]) == (before.0 + [last.0], last.1)
  {
    LegacyBatchAppend(parse, fault, s, msgs[..i], [msgs[i]]);
    Sequences.TakeSnoc(msgs, i);
    var before := LegacyBatchSpec(parse, fault, s, msgs[..i]);
    var last := LegacyMessageSpec(parse, fault, before.1, msgs[i]);
    assert [msgs[i]][1..] == [];
    Sequences.AppendEmpty([last.0], []);
  }

  // ---------------------------------------------------------------------------------------
  // Properties

  /** Database failures never keep a message: the records of a message go through exactly
      when every key is falsy or a string, whatever the store answers. */
  lemma {:induction false} LegacyRecordsOutcome(fault: nat -> bool, s: DbState, records: seq<Value>)
    ensures LegacyRecordsSpec(fault, s, records).0 <==> forall i :: 0 <= i < |records| ==> KeyReadable(records[i])
    decreases |records|
  {
    if records != [] {
      var step := LegacyStep(fault, s, records[0]);
      LegacyRecordsOutcome(fault, step.1, records[1..]);
      if step.0 {
        forall i | 0 <= i < |records| && (forall j :: 0 <= j < |records| - 1 ==> KeyReadable(records[1..][j]))
          ensures KeyReadable(records[i])
        {
          if i > 0 {
            assert records[i] == records[1..][i - 1];
          }
        }
      }
    }
  }

  /** A message stays in the queue exactly when its body is unparseable, or one of its records
      has a key that is neither falsy nor a string. */
  lemma LegacyKeptIff(parse: JsonParser, fault: nat -> bool, s: DbState, m: Message)
    ensures var parsed := TryParseJson(parse, m.body);
      var records := ExtractFromEnvelope(parse, parsed);
      LegacyMessageSpec(parse, fault, s, m).0 == Keep <==>
        !Truthy(parsed) || exists i :: 0 <= i < |records| && !KeyReadable(records[i])
  {
    var parsed := TryParseJson(parse, m.body);
    LegacyRecordsOutcome(fault, s, ExtractFromEnvelope(parse, parsed));
  }

  /** An unparseable body is where the legacy poller and the polling worker part ways: the
      worker deletes the message, the legacy poller leaves it to be delivered again. Neither
      touches the store. */
  lemma UnparseableBodies(parse: JsonParser, fault: nat -> bool, s: DbState, status: FileStatus, m: Message)
    requires !Truthy(TryParseJson(parse, m.body))
    ensures MessageSpec(parse, fault, s, status, m) == (Delete, s)
    ensures LegacyMessageSpec(parse, fault, s, m) == (Keep, s)
  {
  }

  /** An S3 test event that carries a `Records` array is ignored by the worker but processed by
      the legacy poller, which has no test-event branch. */
  lemma TestEventsWithRecords(parse: JsonParser, fault: nat -> bool, s: DbState, status: FileStatus, m: Message)
    requires var parsed := TryParseJson(parse, m.body);
      IsTestEvent(parsed) && Get(parsed, "Records").Arr? && Get(parsed, "Records").items != []
    ensures MessageSpec(parse, fault, s, status, m) == (Delete, s)
    ensures var outcome := LegacyRecordsSpec(fault, s, Get(TryParseJson(parse, m.body), "Records").items);
      LegacyMessageSpec(parse, fault, s, m) == (if outcome.0 then Delete else Keep, outcome.1)
  {
    var parsed := TryParseJson(parse, m.body);
    assert Truthy(parsed);
  }

  /** Every size a record reports is absent or a number Prisma accepts. */
  predicate SizesAccepted(records: seq<Value>) {
    forall i :: 0 <= i < |records| ==> !SizeFieldOf(SizeOf(records[i])).NotANumber?
  }

  /** With a healthy store and sizes the store accepts, the lookup-then-update of the worker and
      the direct update of the legacy poller leave the same rows: updating an unknown key is a
      refused call the legacy poller swallows. */
  lemma StepAgrees(fault: nat -> bool, s: DbState, s': DbState, record: Value)
    requires forall n :: !fault(n)
    requires s.tables == s'.tables && !SizeFieldOf(SizeOf(record)).NotANumber?
    ensures var w, l := ProcessSpec(fault, s, COMPLETE, record), LegacyStep(fault, s', record);
      w.0 == l.0 && w.1.tables == l.1.tables
  {
    var rawKey := KeyOf(record);
    if Truthy(rawKey) && rawKey.Str? {
      ProcessLooksUp(fault, s, COMPLETE, record);
      var key, size := DecodeS3Key(rawKey.s), SizeFieldOf(SizeOf(record));
      assert !fault(s.calls) && !fault(s.calls + 1) && !fault(s'.calls);
      if KeyTaken(s.tables, key) {
        LookupUpdates(fault, s, COMPLETE, key, size);
      }
    }
  }

  /** With a healthy store and sizes it accepts, the legacy record loop and the service's reach
      the same outcome and leave the same rows. */
  lemma {:induction false} RecordsAgree(fault: nat -> bool, s: DbState, s': DbState, records: seq<Value>)
    requires forall n :: !fault(n)
    requires s.tables == s'.tables && SizesAccepted(records)
    ensures var w, l := RecordsSpec(fault, s, COMPLETE, records), LegacyRecordsSpec(fault, s', records);
      w.0 == l.0 && w.1.tables == l.1.tables
    decreases |records|
  {
    if records != [] {
      StepAgrees(fault, s, s', records[0]);
      var w, l := ProcessSpec(fault, s, COMPLETE, records[0]), LegacyStep(fault, s', records[0]);
      if w.0 {
        assert SizesAccepted(records[1..]) by {
          forall i | 0 <= i < |records[1..]|
            ensures !SizeFieldOf(SizeOf(records[1..][i])).NotANumber?
          {
            assert records[1..][i] == records[i + 1];
          }
        }
        RecordsAgree(fault, w.1, l.1, records[1..]);
      }
    }
  }

  /** For a parseable message that is not a test event, with a healthy store and sizes it
      accepts, the legacy poller acknowledges it as the service does and leaves the same rows. */
  lemma MessageAgrees(parse: JsonParser, fault: nat -> bool, s: DbState, s': DbState, m: Message)
    requires forall n :: !fault(n)
    requires var parsed := TryParseJson(parse, m.body);
      Truthy(parsed) && !IsTestEvent(parsed) && SizesAccepted(ExtractFromEnvelope(parse, parsed))
    requires s.tables == s'.tables
    ensures var w, l := MessageSpec(parse, fault, s, COMPLETE, m), LegacyMessageSpec(parse, fault, s', m);
      w.0 == l.0 && w.1.tables == l.1.tables
  {
    var parsed := TryParseJson(parse, m.body);
    var records := ExtractFromEnvelope(parse, parsed);
    assert ExtractS3Records(parse, parsed) == records;
    if records != [] {
      RecordsAgree(fault, s, s', records);
    }
  }

  /** The legacy poller, too, changes a row only by giving it the status "complete" and the
      size the event reports. */
  lemma {:induction false} LegacyRecordsWriteOnly(fault: nat -> bool, s: DbState, records: seq<Value>)
    ensures WrittenOnly(s.tables, LegacyRecordsSpec(fault, s, records).1.tables, COMPLETE)
    decreases |records|
  {
    if records != [] {
      var step := LegacyStep(fault, s, records[0]);
      forall k | k in s.tables.files
        ensures RowWritten(s.tables.files[k], step.1.tables.files[k], COMPLETE)
      {
      }
      if step.0 {
        LegacyRecordsWriteOnly(fault, step.1, records[1..]);
        WrittenOnlyTrans(s.tables, step.1.tables, LegacyRecordsSpec(fault, step.1, records[1..]).1.tables, COMPLETE);
      }
    } else {
      assert WrittenOnly(s.tables, s.tables, COMPLETE);
    }
  }
}
