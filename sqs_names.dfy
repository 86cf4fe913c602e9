/**
 * Queue naming at deployment. A replication source is identified by its bucket and prefix
 * filter; the identifier is made safe for SQS by replacing every character outside
 * [A-Za-z0-9_-] with '-', and names the source queue 'source-{id}' and its dead-letter
 * queue 'source-{id}-dlq'.
 */
module SqsNames {
  import opened Strings
  import BackfillLambda

  /** The characters SQS accepts in a queue name, as the deployment lists them, group by group. */
  const ValidChars := "abcdefghijklmnopqrstuvwxyz" + "ABCDEFGHIJKLMNOPQRSTUVWXYZ" + "0123456789" + "-_"

  /** Every character of `s` is one SQS accepts. */
  predicate AllValid(s: string) {
    forall i :: 0 <= i < |s| ==> s[i] in ValidChars
  }

  /** The sanitised name: each character kept when valid, '-' in its place otherwise. */
  function Sanitized(name: string): (r: string)
    ensures |r| == |name|
    ensures forall i :: 0 <= i < |name| ==> r[i] == (if name[i] in ValidChars then name[i] else '-')
  {
    if |name| == 0 then ""
    else
      var last := name[|name| - 1];
      Sanitized(name[..|name| - 1]) + [if last in ValidChars then last else '-']
  }

  /** `sanitize_sqs_name`: the result grows by one character per input character. */
  method SanitizeSqsName(name: string) returns (result: string)
    ensures result == Sanitized(name)
  {
    result := "";
    var i := 0;
    while i < |name|
      invariant 0 <= i <= |name|
      invariant result == Sanitized(name[..i])
    {
      assert name[..i + 1][..i] == name[..i];
      var ch := name[i];
      if ch in ValidChars {
        result := result + [ch];
      } else {
        result := result + "-";
      }
      i := i + 1;
    }
    assert name[..i] == name;
  }

  /** The output contains only valid characters. */
  lemma SanitizedAllValid(name: string)
    ensures AllValid(Sanitized(name))
  {
    assert '-' in ValidChars;
  }

  /** A name that is already valid passes through unchanged. */
  lemma SanitizedKeepsValid(name: string)
    requires AllValid(name)
    ensures Sanitized(name) == name
  {
    var r := Sanitized(name);
    assert forall i :: 0 <= i < |name| ==> r[i] == name[i];
  }

  /** Sanitising twice is sanitising once. */
  lemma SanitizedIdempotent(name: string)
    ensures Sanitized(Sanitized(name)) == Sanitized(name)
  {
    SanitizedAllValid(name);
    SanitizedKeepsValid(Sanitized(name));
  }

  lemma AllValidConcat(a: string, b: string)
    requires AllValid(a) && AllValid(b)
    ensures AllValid(a + b)
  {
    assert forall i :: 0 <= i < |a + b| ==> (a + b)[i] == if i < |a| then a[i] else b[i - |a|];
  }

  lemma FixedPartsValid()
    ensures AllValid("source-") && AllValid("-dlq") && AllValid("-")
  {
  }

  /** Sanitising works character by character, so it distributes over concatenation. */
  lemma {:induction false} SanitizedConcat(x: string, y: string)
    ensures Sanitized(x + y) == Sanitized(x) + Sanitized(y)
    decreases |y|
  {
    if |y| > 0 {
      var init := y[..|y| - 1];
      SanitizedConcat(x, init);
      assert (x + y)[..|x + y| - 1] == x + init;
    } else {
      assert x + y == x;
    }
  }

  /** An invalid separator between two valid parts becomes a '-'. */
  lemma SanitizedReplacesSeparator(a: string, c: char, b: string)
    requires AllValid(a) && AllValid(b) && c !in ValidChars
    ensures Sanitized(a + [c] + b) == a + "-" + b
  {
    SanitizedConcat(a + [c], b);
    SanitizedConcat(a, [c]);
    SanitizedKeepsValid(a);
    SanitizedKeepsValid(b);
    assert Sanitized([c]) == "-";
  }

  /** Sanitising is not injective: identifiers that differ only in invalid characters collide. */
  lemma SanitizedCollides(a: string, c: char, d: char, b: string)
    requires AllValid(a) && AllValid(b) && c !in ValidChars && d !in ValidChars && c != d
    ensures a + [c] + b != a + [d] + b
    ensures Sanitized(a + [c] + b) == Sanitized(a + [d] + b)
  {
    assert (a + [c] + b)[|a|] == c && (a + [d] + b)[|a|] == d;
    SanitizedReplacesSeparator(a, c, b);
    SanitizedReplacesSeparator(a, d, b);
  }

  /** A source's identifier: '{bucket}-{prefix}' when it has a prefix filter, otherwise the bucket. */
  function SourceId(bucket: string, prefix: string): string {
    if prefix != "" then bucket + "-" + prefix else bucket
  }

  /** The source queue's name: the queue id 'source-{sanitised id}' is also its name. */
  function SourceQueueName(configId: string): (name: string)
    ensures AllValid(name)
  {
    SanitizedAllValid(configId);
    FixedPartsValid();
    AllValidConcat("source-", Sanitized(configId));
    "source-" + Sanitized(configId)
  }

  /** The dead-letter queue's name: the queue id with '-dlq' appended. */
  function DeadLetterQueueName(configId: string): (name: string)
    ensures AllValid(name)
  {
    SanitizedAllValid(configId);
    FixedPartsValid();
    AllValidConcat("source-", Sanitized(configId));
    AllValidConcat("source-" + Sanitized(configId), "-dlq");
    "source-" + Sanitized(configId) + "-dlq"
  }

  /** A source queue and its dead-letter queue never share a name, nor does the queue of another source. */
  lemma QueueNamesDistinct(id: string, other: string)
    ensures SourceQueueName(id) != DeadLetterQueueName(id)
    ensures |id| == |other| ==> SourceQueueName(id) != DeadLetterQueueName(other)
  {
    assert |DeadLetterQueueName(id)| == |SourceQueueName(id)| + 4;
    assert |DeadLetterQueueName(other)| == |SourceQueueName(other)| + 4;
  }

  /**
   * The backfill function addresses a source by the name 'source-{bucket}[-{prefix}]' without
   * sanitising; that name is the deployed one whenever bucket and prefix use only valid characters.
   */
  lemma BackfillNameIsDeployedName(bucket: string, prefix: string)
    requires AllValid(bucket) && AllValid(prefix)
    ensures BackfillLambda.QueueName(bucket, prefix) == SourceQueueName(SourceId(bucket, prefix))
  {
    var id := SourceId(bucket, prefix);
    FixedPartsValid();
    AllValidConcat(bucket, "-");
    AllValidConcat(bucket + "-", prefix);
    SanitizedKeepsValid(id);
  }

  /**
   * A bucket name with a dot (valid for S3) is deployed under a different queue name than the
   * one the backfill function addresses.
   */
  lemma DottedBucketNamesDiverge(a: string, b: string)
    requires AllValid(a) && AllValid(b)
    ensures BackfillLambda.QueueName(a + "." + b, "") != SourceQueueName(SourceId(a + "." + b, ""))
  {
    var used := BackfillLambda.QueueName(a + "." + b, "");
    assert used == "source-" + (a + "." + b);
    assert used[7 + |a|] == '.';
    var deployed := SourceQueueName(SourceId(a + "." + b, ""));
    assert deployed == "source-" + (a + "-" + b) by {
      DotReplaced(a, b);
    }
    assert deployed[7 + |a|] == '-';
  }

  /** The dotted identifier is deployed with its dot replaced. */
  lemma DotReplaced(a: string, b: string)
    requires AllValid(a) && AllValid(b)
    ensures Sanitized(SourceId(a + "." + b, "")) == a + "-" + b
  {
    assert '.' !in ValidChars;
    assert a + "." + b == a + ['.'] + b;
    SanitizedReplacesSeparator(a, '.', b);
  }
}
