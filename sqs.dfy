/**
 * The reconciler helpers of `backend/src/shared/utils/sqs.util.ts`: reading a queue message's
 * JSON body, turning the notification envelope into a list of S3 event records, decoding the
 * object key carried by a record, and applying one record to the file-record table (the object
 * has arrived, so its row becomes UPLOADED and takes the reported size).
 *
 * `JSON.parse` is a parameter (`None` where it throws a SyntaxError); everything else is
 * modelled. The status that `processS3Record` writes is a parameter too, because the older
 * copies of this code write the string status "complete" instead.
 */
module Reconciler {
  import opened Wrappers
  import opened Js
  import opened UriCodec
  import opened Store

  /** A JSON parser: the value a text denotes, `None` for text that is not JSON. */
  type JsonParser = string -> Option<Value>

  // ---------------------------------------------------------------------------------------
  // tryParseJson

  /** `tryParseJson(raw)`: JavaScript `null` for an absent or empty input and for malformed
      JSON, the parsed value otherwise. (A body that parses to `null` reads the same as a
      failure, as it does in the source.) */
  function TryParseJson(parse: JsonParser, raw: Option<string>): (v: Value)
    ensures raw.None? || raw.value == "" ==> v == Null
    ensures raw.Some? && raw.value != "" && parse(raw.value).None? ==> v == Null
    ensures raw.Some? && raw.value != "" && parse(raw.value).Some? ==> v == parse(raw.value).value
  {
    if raw.None? || raw.value == "" then Null
    else match parse(raw.value)
      case None => Null
      case Some(v) => v
  }

  // ---------------------------------------------------------------------------------------
  // extractS3Records

  /** The body S3 sends when a notification target is first configured. */
  predicate IsTestEvent(body: Value) {
    Get(body, "Event") == Str("s3:TestEvent")
  }

  /** The `Records` of an SNS `Notification` whose `Message` is itself a JSON string. */
  function SnsRecords(parse: JsonParser, body: Value): Option<seq<Value>> {
    var message := Get(body, "Message");
    if Get(body, "Type") == Str("Notification") && message.Str? then
      var inner := TryParseJson(parse, Some(message.s));
      var records := Get(inner, "Records");
      if records.Arr? then Some(records.items) else None
    else None
  }

  /** The one record built for an EventBridge event: `{s3: {bucket: {name}, object: {key}}}`. */
  function EventBridgeRecord(bucket: Value, key: Value): Value {
    Obj(map["s3" := Obj(map["bucket" := Obj(map["name" := bucket]), "object" := Obj(map["key" := key])])])
  }

  /** The record list of a body that is not a test event: a top-level `Records` array, else the
      `Records` inside an SNS notification, else the single record of an EventBridge event that
      names a bucket and a key, else nothing. */
  function ExtractFromEnvelope(parse: JsonParser, body: Value): seq<Value> {
    var records := Get(body, "Records");
    if records.Arr? then records.items
    else match SnsRecords(parse, body)
      case Some(inner) => inner
      case None =>
        var params := At(body, ["detail", "requestParameters"]);
        var bucket := Get(params, "bucketName");
        var key := Get(params, "key");
        if Truthy(bucket) && Truthy(key) then [EventBridgeRecord(bucket, key)] else []
  }

  /** `extractS3Records(messageBody)`: the test event is recognised before any record shape. */
  function ExtractS3Records(parse: JsonParser, body: Value): (records: seq<Value>)
    ensures IsTestEvent(body) ==> records == []
    ensures !IsTestEvent(body) ==> records == ExtractFromEnvelope(parse, body)
  {
    if IsTestEvent(body) then [] else ExtractFromEnvelope(parse, body)
  }

  // ---------------------------------------------------------------------------------------
  // decodeS3Key

  /** `s.replace(/\+/g, "%20")`. */
  function ReplacePlus(s: string): string
    decreases |s|
  {
    if s == [] then [] else (if s[0] == '+' then "%20" else [s[0]]) + ReplacePlus(s[1..])
  }

  /** `decodeS3Key(rawKey)`: the `+` that stands for a space becomes "%20", the result is
      percent-decoded, and a malformed escape leaves the raw key as it was. */
  function DecodeS3Key(rawKey: string): (key: string)
    ensures Decode(ReplacePlus(rawKey)).None? ==> key == rawKey
  {
    match Decode(ReplacePlus(rawKey))
    case Some(decoded) => decoded
    case None => rawKey
  }

  /** How S3 spells an object key in an event notification: the key is URL-encoded, with a
      space written as `+`. */
  function FormEncode(s: string): string
    decreases |s|
  {
    if s == [] then [] else (if s[0] == ' ' then "+" else EncodeChar(s[0])) + FormEncode(s[1..])
  }

  // ---------------------------------------------------------------------------------------
  // processS3Record

  /** Where a record carries its object key and size. */
  function KeyOf(record: Value): Value {
    At(record, ["s3", "object", "key"])
  }

  function SizeOf(record: Value): Value {
    At(record, ["s3", "object", "size"])
  }

  /** `...(size && {size: parseInt(size)})`: a falsy size leaves the column alone, any other
      value is read with `parseInt(String(size))`, with no radix, so that "0x" after the sign
      means hexadecimal; a NaN is written too, and the store refuses it. */
  function SizeFieldOf(size: Value): (f: SizeField)
    ensures !Truthy(size) <==> f.Unset?
    ensures f.NotANumber? <==> Truthy(size) && ParseIntAuto(ToStr(size)).None?
    ensures f.SetSize? ==> ParseIntAuto(ToStr(size)) == Some(f.n)
  {
    if !Truthy(size) then Unset
    else match ParseIntAuto(ToStr(size))
      case None => NotANumber
      case Some(n) => SetSize(n)
  }

  /** The lookup by key and the update of the row it finds; `false` when either call throws
      (the error is rethrown). */
  function LookupAndUpdate(fault: nat -> bool, s: DbState, status: FileStatus, s3Key: string, size: SizeField): (r: (bool, DbState))
    ensures r.1.tables.chunks == s.tables.chunks && r.1.tables.files.Keys == s.tables.files.Keys
  {
    if fault(s.calls) then (false, s.(calls := s.calls + 1))
    else if !KeyTaken(s.tables, s3Key) then (true, s.(calls := s.calls + 1))
    else Run(fault, s.(calls := s.calls + 1), UpdateByKey(s.tables, s3Key, status, size))
  }

  /** `processS3Record(record)` with the status it writes: `true` when it returns, `false` when
      it throws. A non-string key throws before the store is called (`rawKey.replace` is not a
      function of it). */
  function ProcessSpec(fault: nat -> bool, s: DbState, status: FileStatus, record: Value): (r: (bool, DbState))
    ensures r.1.tables.chunks == s.tables.chunks && r.1.tables.files.Keys == s.tables.files.Keys
  {
    var rawKey := KeyOf(record);
    if !Truthy(rawKey) then (true, s)
    else if !rawKey.Str? then (false, s)
    else LookupAndUpdate(fault, s, status, DecodeS3Key(rawKey.s), SizeFieldOf(SizeOf(record)))
  }

  /** `processS3Record` over the store client. */
  method ProcessS3Record(db: Database, status: FileStatus, record: Value) returns (ok: bool)
    requires db.Valid()
    modifies db
    ensures db.Valid()
    ensures (ok, db.State()) == ProcessSpec(db.fault, old(db.State()), status, record)
  {
    var rawKey := KeyOf(record);
    if !Truthy(rawKey) {
      return true;
    }
    if !rawKey.Str? {
      return false;
    }
    ProcessLooksUp(db.fault, db.State(), status, record);
    ok := LookUpAndUpdateRow(db, status, DecodeS3Key(rawKey.s), SizeFieldOf(SizeOf(record)));
  }

  /** The `try` block of `processS3Record`: find the row by key, update it when there is one. */
  method LookUpAndUpdateRow(db: Database, status: FileStatus, s3Key: string, size: SizeField) returns (ok: bool)
    requires db.Valid()
    modifies db
    ensures db.Valid()
    ensures (ok, db.State()) == LookupAndUpdate(db.fault, old(db.State()), status, s3Key, size)
  {
    var found;
    ok, found := db.FindUniqueByS3Key(s3Key);
    if ok && found.Some? {
      ok := db.UpdateByS3Key(s3Key, status, size);
    }
  }

  // ---------------------------------------------------------------------------------------
  // Properties of the envelope

  /** A top-level `Records` array wins over every other envelope shape, and is returned as it is. */
  lemma DirectRecordsFirst(parse: JsonParser, body: Value)
    requires !IsTestEvent(body) && Get(body, "Records").Arr?
    ensures ExtractS3Records(parse, body) == Get(body, "Records").items
  {
  }

  /** An SNS notification whose message parses to an object with a `Records` array yields
      those records. */
  lemma SnsNotificationRecords(parse: JsonParser, body: Value, message: string, inner: Value)
    requires !IsTestEvent(body) && !Get(body, "Records").Arr?
    requires Get(body, "Type") == Str("Notification") && Get(body, "Message") == Str(message)
    requires message != "" && parse(message) == Some(inner) && Get(inner, "Records").Arr?
    ensures ExtractS3Records(parse, body) == Get(inner, "Records").items
  {
  }

  /** A numeric size, as S3 events report it: none for 0, which is falsy; the number itself
      below 1e21 in magnitude; from there on `String` writes exponent notation and only the
      leading digit is read. */
  lemma SizeFieldOfNumber(n: int)
    ensures n == 0 ==> SizeFieldOf(Num(n)) == Unset
    ensures n != 0 && -EXPONENT_THRESHOLD < n < EXPONENT_THRESHOLD ==> SizeFieldOf(Num(n)) == SetSize(n)
    ensures n >= EXPONENT_THRESHOLD ==> SizeFieldOf(Num(n)) == SetSize(LeadingDigit(n))
    ensures n <= -EXPONENT_THRESHOLD ==> SizeFieldOf(Num(n)) == SetSize(-(LeadingDigit(-n) as int))
  {
    ParseIntAutoOfNumber(n);
    ParseIntOfNumber(n, []);
    assert NumberToString(n) + [] == NumberToString(n);
  }

  /** A size sent as text with a "0x" or "0X" prefix after its sign is read in base 16. */
  lemma SizeFieldOfHexText(sign: string, x: char, hs: string, rest: string)
    requires sign == "" || sign == "+" || sign == "-"
    requires x == 'x' || x == 'X'
    requires hs != [] && AllHex(hs)
    requires rest == [] || !IsHex(rest[0])
    ensures sign != "-" ==> SizeFieldOf(Str(sign + ['0', x] + hs + rest)) == SetSize(HexDigitsValue(hs))
    ensures sign == "-" ==> SizeFieldOf(Str(sign + ['0', x] + hs + rest)) == SetSize(-(HexDigitsValue(hs) as int))
  {
    ParseIntAutoOfHex(sign, x, hs, rest);
  }

  /** So "0x10" sets the size 16, where `parseInt("0x10", 10)` would give 0. */
  lemma SizeFieldOfHexExample()
    ensures SizeFieldOf(Str("0x10")) == SetSize(16)
  {
    SizeFieldOfHexText("", 'x', "10", []);
    assert "" + ['0', 'x'] + "10" + [] == "0x10";
    assert HexDigitsValue("10") == HexDigitsValue("1") * 16 + 0;
    assert HexDigitsValue("1") == HexDigitsValue("") * 16 + 1;
  }

  /** The synthetic EventBridge record carries the bucket and the key exactly where
      `processS3Record` reads them, and no size. */
  lemma EventBridgeRecordRead(bucket: Value, key: Value)
    ensures KeyOf(EventBridgeRecord(bucket, key)) == key
    ensures At(EventBridgeRecord(bucket, key), ["s3", "bucket", "name"]) == bucket
    ensures SizeFieldOf(SizeOf(EventBridgeRecord(bucket, key))) == Unset
  {
    var r := EventBridgeRecord(bucket, key);
    var obj := Get(Get(r, "s3"), "object");
    assert KeyOf(r) == At(obj, ["key"]);
    assert SizeOf(r) == At(obj, ["size"]);
    assert At(r, ["s3", "bucket", "name"]) == At(Get(Get(r, "s3"), "bucket"), ["name"]);
  }

  /** An EventBridge body with a bucket name and a key yields exactly one record, for them. */
  lemma EventBridgeSingleRecord(parse: JsonParser, body: Value)
    requires !IsTestEvent(body) && !Get(body, "Records").Arr? && SnsRecords(parse, body).None?
    requires Truthy(At(body, ["detail", "requestParameters", "bucketName"]))
    requires Truthy(At(body, ["detail", "requestParameters", "key"]))
    ensures var records := ExtractS3Records(parse, body);
      |records| == 1 &&
      KeyOf(records[0]) == At(body, ["detail", "requestParameters", "key"]) &&
      At(records[0], ["s3", "bucket", "name"]) == At(body, ["detail", "requestParameters", "bucketName"])
  {
    var params := At(body, ["detail", "requestParameters"]);
    AtAppend(body, ["detail", "requestParameters"], "key");
    AtAppend(body, ["detail", "requestParameters"], "bucketName");
    EventBridgeRecordRead(Get(params, "bucketName"), Get(params, "key"));
  }

  /** Following a path and then one more property is following the longer path. */
  lemma {:induction false} AtAppend(v: Value, path: seq<string>, name: string)
    ensures At(v, path + [name]) == Get(At(v, path), name)
    decreases |path|
  {
    if path == [] {
      assert [] + [name] == [name];
    } else {
      assert (path + [name])[1..] == path[1..] + [name];
      AtAppend(Get(v, path[0]), path[1..], name);
    }
  }

  /** A body with none of the record-bearing shapes yields no records. */
  lemma NoShapeNoRecords(parse: JsonParser, body: Value)
    requires body.Obj? && "Records" !in body.props && "Type" !in body.props && "detail" !in body.props
    ensures ExtractS3Records(parse, body) == []
  {
    assert At(body, ["detail", "requestParameters"]) == At(Undefined, ["requestParameters"]);
  }

  // ---------------------------------------------------------------------------------------
  // Properties of the key decoding

  lemma {:induction false} ReplacePlusAppend(a: string, b: string)
    ensures ReplacePlus(a + b) == ReplacePlus(a) + ReplacePlus(b)
    decreases |a|
  {
    if a == [] {
      assert a + b == b;
    } else {
      assert (a + b)[1..] == a[1..] + b;
      ReplacePlusAppend(a[1..], b);
    }
  }

  /** Without a `+` there is nothing to replace. */
  lemma {:induction false} ReplacePlusWithoutPlus(s: string)
    requires forall i :: 0 <= i < |s| ==> s[i] != '+'
    ensures ReplacePlus(s) == s
    decreases |s|
  {
    if s != [] {
      ReplacePlusWithoutPlus(s[1..]);
      assert [s[0]] + s[1..] == s;
    }
  }

  /** After the replacement no `+` is left. */
  lemma {:induction false} ReplacePlusRemovesPlus(s: string)
    ensures forall i :: 0 <= i < |ReplacePlus(s)| ==> ReplacePlus(s)[i] != '+'
    decreases |s|
  {
    if s != [] {
      ReplacePlusRemovesPlus(s[1..]);
    }
  }

  /** A '%' is never introduced where the key had neither `+` nor `%`, so such a key is
      returned as it is. */
  lemma PlainKeyUnchanged(rawKey: string)
    requires forall i :: 0 <= i < |rawKey| ==> rawKey[i] != '+' && rawKey[i] != '%'
    ensures DecodeS3Key(rawKey) == rawKey
  {
    ReplacePlusWithoutPlus(rawKey);
    DecodeWithoutEscapes(rawKey);
  }

  lemma {:induction false} EscapesHaveNoPlus(bs: seq<Byte>)
    ensures forall i :: 0 <= i < |EscapeBytes(bs)| ==> EscapeBytes(bs)[i] != '+'
    decreases |bs|
  {
    if bs != [] {
      EscapesHaveNoPlus(bs[1..]);
      assert EscapeBytes(bs) == EscapeByte(bs[0]) + EscapeBytes(bs[1..]);
    }
  }

  /** The form-encoding differs from the percent-encoding only in writing a space as `+`,
      which is exactly what the replacement undoes. */
  lemma {:induction false} ReplacePlusOfFormEncode(s: string)
    ensures ReplacePlus(FormEncode(s)) == Encode(s)
    decreases |s|
  {
    if s != [] {
      var head := if s[0] == ' ' then "+" else EncodeChar(s[0]);
      ReplacePlusAppend(head, FormEncode(s[1..]));
      ReplacePlusOfFormEncode(s[1..]);
      if s[0] == ' ' {
        assert ReplacePlus(head) == "%20";
        assert EncodeChar(' ') == "%20";
      } else if IsUnreserved(s[0]) {
        assert ReplacePlus(head) == head;
      } else {
        EscapesHaveNoPlus(Utf8(s[0]));
        ReplacePlusWithoutPlus(head);
      }
    }
  }

  /** Round trip: the key S3 reports for an object decodes to the object's key. */
  lemma DecodeS3KeyOfFormEncode(key: string)
    ensures DecodeS3Key(FormEncode(key)) == key
  {
    ReplacePlusOfFormEncode(key);
    DecodeOfEncode(key);
  }

  // ---------------------------------------------------------------------------------------
  // Properties of processS3Record

  /** A record without a key changes nothing and does not reach the store. */
  lemma ProcessWithoutKey(fault: nat -> bool, s: DbState, status: FileStatus, record: Value)
    requires !Truthy(KeyOf(record))
    ensures ProcessSpec(fault, s, status, record) == (true, s)
  {
  }

  /** A key that no row has changes no row: the lookup is the only call. */
  lemma ProcessUnknownKey(fault: nat -> bool, s: DbState, status: FileStatus, record: Value)
    requires KeyOf(record).Str? && KeyOf(record).s != ""
    requires !KeyTaken(s.tables, DecodeS3Key(KeyOf(record).s))
    ensures ProcessSpec(fault, s, status, record).1 == s.(calls := s.calls + 1)
  {
  }

  /** A store failure in the lookup or the update is rethrown. */
  lemma ProcessRethrows(fault: nat -> bool, s: DbState, status: FileStatus, record: Value)
    requires KeyOf(record).Str? && KeyOf(record).s != ""
    requires fault(s.calls) || (KeyTaken(s.tables, DecodeS3Key(KeyOf(record).s)) && fault(s.calls + 1))
    ensures !ProcessSpec(fault, s, status, record).0
  {
  }

  /** On a healthy store, when a row has the decoded key and the reported size is not NaN, that
      row gets the status, and the size when the event reports a truthy one that parses; every
      other row is unchanged. */
  lemma ProcessUpdates(fault: nat -> bool, s: DbState, status: FileStatus, record: Value)
    requires KeyOf(record).Str? && KeyOf(record).s != ""
    requires !fault(s.calls) && !fault(s.calls + 1)
    requires KeyTaken(s.tables, DecodeS3Key(KeyOf(record).s))
    requires !SizeFieldOf(SizeOf(record)).NotANumber?
    ensures var r := ProcessSpec(fault, s, status, record);
      var key := DecodeS3Key(KeyOf(record).s);
      var size := SizeFieldOf(SizeOf(record));
      && r.0
      && forall id :: id in s.tables.files ==>
        r.1.tables.files[id] ==
          if s.tables.files[id].s3Key != key then s.tables.files[id]
          else Updated(s.tables.files[id], status, size)
  {
    ProcessLooksUp(fault, s, status, record);
    LookupUpdates(fault, s, status, DecodeS3Key(KeyOf(record).s), SizeFieldOf(SizeOf(record)));
  }

  lemma ProcessLooksUp(fault: nat -> bool, s: DbState, status: FileStatus, record: Value)
    requires KeyOf(record).Str? && KeyOf(record).s != ""
    ensures ProcessSpec(fault, s, status, record) ==
      LookupAndUpdate(fault, s, status, DecodeS3Key(KeyOf(record).s), SizeFieldOf(SizeOf(record)))
  {
  }

  lemma LookupUpdates(fault: nat -> bool, s: DbState, status: FileStatus, key: string, size: SizeField)
    requires !fault(s.calls) && KeyTaken(s.tables, key)
    requires LookupAndUpdate(fault, s, status, key, size).0 || (!fault(s.calls + 1) && !size.NotANumber?)
    ensures LookupAndUpdate(fault, s, status, key, size) == (true, DbState(UpdateByKey(s.tables, key, status, size).value, s.calls + 2))
  {
  }

  /** Applying a record that was applied without error once more changes no row. */
  lemma ProcessIdempotent(fault: nat -> bool, s: DbState, status: FileStatus, record: Value)
    requires ProcessSpec(fault, s, status, record).0
    ensures var s1 := ProcessSpec(fault, s, status, record).1;
      ProcessSpec(fault, s1, status, record).1.tables == s1.tables
  {
    var rawKey := KeyOf(record);
    if Truthy(rawKey) && rawKey.Str? {
      LookupAndUpdateIdempotent(fault, s, status, DecodeS3Key(rawKey.s), SizeFieldOf(SizeOf(record)));
    }
  }

  lemma LookupAndUpdateIdempotent(fault: nat -> bool, s: DbState, status: FileStatus, key: string, size: SizeField)
    requires LookupAndUpdate(fault, s, status, key, size).0
    ensures var s1 := LookupAndUpdate(fault, s, status, key, size).1;
      LookupAndUpdate(fault, s1, status, key, size).1.tables == s1.tables
  {
    if KeyTaken(s.tables, key) {
      var t1 := UpdateByKey(s.tables, key, status, size).value;
      LookupUpdates(fault, s, status, key, size);
      UpdateByKeyIdempotent(s.tables, key, status, size);
      UpdatedAgain(fault, t1, s.calls + 2, status, key, size);
    }
  }

  lemma UpdatedAgain(fault: nat -> bool, t1: Tables, calls: nat, status: FileStatus, key: string, size: SizeField)
    requires UpdateByKey(t1, key, status, size) == Some(t1)
    ensures LookupAndUpdate(fault, DbState(t1, calls), status, key, size).1.tables == t1
  {
  }
}
