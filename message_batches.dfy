/**
 * The message-level steps both agents share: sorting S3 test events from regular
 * messages, and collecting the regular messages' receipt handles and announced objects.
 */
module MessageBatches {
  import opened S3Events

  /** The receipt handles of the test-event messages, in order. */
  function TestHandles(messages: seq<Message>): (hs: seq<string>)
    ensures |hs| <= |messages|
  {
    if |messages| == 0 then []
    else
      var m := messages[|messages| - 1];
      TestHandles(messages[..|messages| - 1]) + (if IsTestEvent(m) then [m.receiptHandle] else [])
  }

  /** The messages that are not test events, in order. */
  function Regular(messages: seq<Message>): (rs: seq<Message>)
    ensures |rs| <= |messages|
  {
    if |messages| == 0 then []
    else
      var m := messages[|messages| - 1];
      Regular(messages[..|messages| - 1]) + (if IsTestEvent(m) then [] else [m])
  }

  /** The receipt handles of a message list, in order. */
  function Handles(messages: seq<Message>): (hs: seq<string>)
    ensures |hs| == |messages| && forall i :: 0 <= i < |messages| ==> hs[i] == messages[i].receiptHandle
  {
    seq(|messages|, i requires 0 <= i < |messages| => messages[i].receiptHandle)
  }

  /** The staged archives the messages announce, in message order. */
  function AllObjects(messages: seq<Message>, unquote: string -> string): seq<S3Object> {
    if |messages| == 0 then []
    else
      var m := messages[|messages| - 1];
      AllObjects(messages[..|messages| - 1], unquote) +
      (if m.body.Some? then S3Events.Extracted(m.body.value.records, unquote) else [])
  }

  /** The loop sorting test events from regular messages. */
  method SplitTestEvents(messages: seq<Message>) returns (tests: seq<string>, regular: seq<Message>)
    ensures tests == TestHandles(messages) && regular == Regular(messages)
  {
    tests, regular := [], [];
    var i := 0;
    while i < |messages|
      invariant 0 <= i <= |messages|
      invariant tests == TestHandles(messages[..i]) && regular == Regular(messages[..i])
    {
      assert messages[..i + 1][..i] == messages[..i];
      var isTest := IsS3TestEvent(messages[i]);
      if isTest {
        tests := tests + [messages[i].receiptHandle];
      } else {
        regular := regular + [messages[i]];
      }
      i := i + 1;
    }
    assert messages[..i] == messages;
  }

  /** The loop collecting the regular messages' handles and announced archives. */
  method CollectObjects(messages: seq<Message>, unquote: string -> string)
    returns (handles: seq<string>, objects: seq<S3Object>)
    ensures handles == Handles(messages) && objects == AllObjects(messages, unquote)
  {
    handles, objects := [], [];
    var i := 0;
    while i < |messages|
      invariant 0 <= i <= |messages|
      invariant handles == Handles(messages[..i]) && objects == AllObjects(messages[..i], unquote)
    {
      assert messages[..i + 1][..i] == messages[..i];
      handles := handles + [messages[i].receiptHandle];
      var extracted := ExtractS3EventInfo(messages[i], unquote);
      objects := objects + extracted;
      i := i + 1;
    }
    assert messages[..i] == messages;
  }

  /** The handles of a list with one more message. */
  lemma HandlesSnoc(messages: seq<Message>, m: Message)
    ensures Handles(messages + [m]) == Handles(messages) + [m.receiptHandle]
  {
  }

  /** One more message goes to the test handles or to the regular messages. */
  lemma SplitSnoc(init: seq<Message>, m: Message)
    ensures TestHandles(init + [m]) == TestHandles(init) + (if IsTestEvent(m) then [m.receiptHandle] else [])
    ensures Regular(init + [m]) == Regular(init) + (if IsTestEvent(m) then [] else [m])
  {
    assert (init + [m])[..|init|] == init;
  }

  /** Test events and regular messages split the batch. */
  lemma {:induction false} TestSplitCount(messages: seq<Message>)
    ensures |TestHandles(messages)| + |Regular(messages)| == |messages|
  {
    if |messages| > 0 {
      var init := messages[..|messages| - 1];
      TestSplitCount(init);
    }
  }

  /** Every handle of the batch is a test handle or the handle of a regular message. */
  lemma {:induction false} TestSplit(messages: seq<Message>)
    ensures multiset(TestHandles(messages) + Handles(Regular(messages))) == multiset(Handles(messages))
  {
    if |messages| > 0 {
      var init := messages[..|messages| - 1];
      var m := messages[|messages| - 1];
      TestSplit(init);
      assert messages == init + [m];
      var isTest := IsTestEvent(m);
      var tests, regular := TestHandles(init), Handles(Regular(init));
      assert TestHandles(messages) == (if isTest then tests + [m.receiptHandle] else tests) &&
             Handles(Regular(messages)) == (if isTest then regular else regular + [m.receiptHandle]) by {
        SplitSnoc(init, m);
        HandlesSnoc(Regular(init), m);
        assert Regular(init) + [] == Regular(init);
      }
      assert Handles(messages) == Handles(init) + [m.receiptHandle] by {
        HandlesSnoc(init, m);
      }
      SplitStep(tests, regular, Handles(init), m.receiptHandle, isTest);
    }
  }

  /** Adding a handle to either side of a split adds it to the whole. */
  lemma SplitStep(tests: seq<string>, regular: seq<string>, all: seq<string>, h: string, isTest: bool)
    requires multiset(tests + regular) == multiset(all)
    ensures multiset((if isTest then tests + [h] else tests) + (if isTest then regular else regular + [h])) ==
            multiset(all + [h])
  {
    if isTest {
      assert multiset(tests + [h] + regular) == multiset(tests + regular) + multiset{h};
    } else {
      assert tests + (regular + [h]) == (tests + regular) + [h];
    }
  }
}
