/**
 * Queue-message handling shared, line for line, by the source and the target agent:
 * S3 test-event detection, extraction of ObjectCreated records, and batch deletion
 * with ordinal entry ids. JSON parsing is a collaborator: a message body is either
 * the parsed event or None for a body that is not JSON.
 */
module S3Events {
  import opened Wrappers
  import opened Strings
  import opened Records

  /** One entry of a body's 'Records' list; a missing key is None. */
  datatype EventRecord = EventRecord(
    eventSource: Option<string>,
    eventName: Option<string>,
    bucketName: Option<string>,
    key: Option<string>)

  /** A parsed body: its 'Event' field and its 'Records' list (empty when absent). */
  datatype EventBody = EventBody(event: Option<string>, records: seq<EventRecord>)

  /** A received message: its receipt handle and its body, None when the body is not JSON. */
  datatype Message = Message(receiptHandle: string, body: Option<EventBody>)

  /** An extracted object reference. */
  datatype S3Object = S3Object(bucket: string, key: string)

  /** What the delete_message_batch call did: raised a client error, or answered. */
  datatype DeleteOutcome = ClientError | Response(successful: seq<string>, failed: seq<string>)

  predicate IsTestRecord(r: EventRecord) {
    r.eventSource == Some("aws:s3") && r.eventName == Some("s3:TestEvent")
  }

  /** A test event: the body's Event is 's3:TestEvent', or one of its records is a test record. */
  predicate IsTestEvent(m: Message) {
    m.body.Some? &&
    (m.body.value.event == Some("s3:TestEvent") ||
     exists i :: 0 <= i < |m.body.value.records| && IsTestRecord(m.body.value.records[i]))
  }

  /** `is_s3_test_event`: the Event check, then a search over the records. */
  method IsS3TestEvent(m: Message) returns (isTest: bool)
    ensures isTest == IsTestEvent(m)
  {
    if m.body.None? {
      return false;
    }
    var body := m.body.value;
    if body.event == Some("s3:TestEvent") {
      return true;
    }
    var i := 0;
    while i < |body.records|
      invariant 0 <= i <= |body.records|
      invariant forall j :: 0 <= j < i ==> !IsTestRecord(body.records[j])
    {
      var record := body.records[i];
      if record.eventSource == Some("aws:s3") && record.eventName == Some("s3:TestEvent") {
        return true;
      }
      i := i + 1;
    }
    return false;
  }

  /** A record that yields an object: from S3, an ObjectCreated event, non-empty bucket and key. */
  predicate Extractable(r: EventRecord) {
    r.eventSource == Some("aws:s3") && StartsWith(r.eventName.GetOr(""), "ObjectCreated") &&
    Truthy(r.bucketName) && Truthy(r.key)
  }

  /** The objects a record list yields, in record order, keys URL-decoded by `unquote`. */
  function Extracted(records: seq<EventRecord>, unquote: string -> string): (objs: seq<S3Object>)
    ensures |objs| <= |records|
  {
    if |records| == 0 then []
    else
      var last := records[|records| - 1];
      Extracted(records[..|records| - 1], unquote) +
      (if Extractable(last) then [S3Object(last.bucketName.value, unquote(last.key.value))] else [])
  }

  /** `extract_s3_event_info`; an unparseable body gives []. */
  method ExtractS3EventInfo(m: Message, unquote: string -> string) returns (objs: seq<S3Object>)
    ensures m.body.None? ==> objs == []
    ensures m.body.Some? ==> objs == Extracted(m.body.value.records, unquote)
  {
    if m.body.None? {
      return [];
    }
    var records := m.body.value.records;
    objs := [];
    var i := 0;
    while i < |records|
      invariant 0 <= i <= |records|
      invariant objs == Extracted(records[..i], unquote)
    {
      assert records[..i + 1][..i] == records[..i];
      var record := records[i];
      if record.eventSource == Some("aws:s3") && StartsWith(record.eventName.GetOr(""), "ObjectCreated") {
        if Truthy(record.bucketName) && Truthy(record.key) {
          objs := objs + [S3Object(record.bucketName.value, unquote(record.key.value))];
        }
      }
      i := i + 1;
    }
    assert records[..i] == records;
  }

  /** An object is extracted exactly when some record is extractable and names it. */
  lemma {:induction false} ExtractedMembership(records: seq<EventRecord>, unquote: string -> string, o: S3Object)
    ensures o in Extracted(records, unquote) <==>
            exists i :: 0 <= i < |records| && Extractable(records[i]) &&
                        o == S3Object(records[i].bucketName.value, unquote(records[i].key.value))
  {
    if |records| > 0 {
      var init := records[..|records| - 1];
      ExtractedMembership(init, unquote, o);
      assert forall i :: 0 <= i < |init| ==> init[i] == records[i];
    }
  }

  /** A test record is never extracted, so a body of test records yields no object. */
  lemma TestRecordsYieldNothing(records: seq<EventRecord>, unquote: string -> string)
    requires forall i :: 0 <= i < |records| ==> IsTestRecord(records[i])
    ensures Extracted(records, unquote) == []
  {
    if Extracted(records, unquote) != [] {
      ExtractedMembership(records, unquote, Extracted(records, unquote)[0]);
    }
  }

  /** The entry ids of a batch of n deletions: '0', '1', ..., in order. */
  function EntryIds(n: nat): (ids: seq<string>)
    ensures |ids| == n && forall i :: 0 <= i < n ==> ids[i] == NatToString(i)
  {
    if n == 0 then [] else EntryIds(n - 1) + [NatToString(n - 1)]
  }

  /** No two entries of a batch share an id. */
  lemma EntryIdsDistinct(n: nat, i: int, j: int)
    requires 0 <= i < n && 0 <= j < n && i != j
    ensures EntryIds(n)[i] != EntryIds(n)[j]
  {
    if EntryIds(n)[i] == EntryIds(n)[j] {
      NatToStringInjective(i, j);
    }
  }

  /**
   * `delete_sqs_messages_batch`: no call at all for an empty list; otherwise one entry per
   * handle with its ordinal id, and the ids the answer lists, or every id as failed on a
   * client error. `entries` is what is sent.
   */
  method DeleteSqsMessagesBatch(handles: seq<string>, outcome: DeleteOutcome)
    returns (entries: seq<(string, string)>, successful: seq<string>, failed: seq<string>)
    ensures |handles| == 0 ==> entries == [] && successful == [] && failed == []
    ensures |handles| > 0 ==>
              |entries| == |handles| &&
              (forall i :: 0 <= i < |handles| ==> entries[i] == (NatToString(i), handles[i])) &&
              (outcome.ClientError? ==> successful == [] && failed == EntryIds(|handles|)) &&
              (outcome.Response? ==> successful == outcome.successful && failed == outcome.failed)
  {
    if |handles| == 0 {
      return [], [], [];
    }
    entries := [];
    var i := 0;
    while i < |handles|
      invariant 0 <= i <= |handles| && |entries| == i
      invariant forall k :: 0 <= k < i ==> entries[k] == (NatToString(k), handles[k])
    {
      entries := entries + [(NatToString(i), handles[i])];
      i := i + 1;
    }
    if outcome.ClientError? {
      successful, failed := [], EntryIds(|handles|);
    } else {
      successful, failed := outcome.successful, outcome.failed;
    }
  }
}
