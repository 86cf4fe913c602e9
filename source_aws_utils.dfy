/**
 * The source agent's derivations from S3 and DynamoDB answers: per-object metadata from
 * a HEAD response and a tag set, and the destination lookup result. The S3 and
 * DynamoDB calls themselves are collaborators whose answers are parameters.
 */
module SourceAwsUtils {
  import opened Wrappers
  import opened Strings
  import opened Records
  import opened ParametersRepository

  /**
   * The fields of a HEAD response the agent reads. LastModified is carried already
   * formatted as 'YYYY-MM-DD HH:MM:SS'.
   */
  datatype HeadResponse = HeadResponse(
    lastModified: string,
    eTag: Option<string>,
    contentLength: Option<int>,
    storageClass: Option<string>)

  /** The source's tag list: one single-entry dictionary per (Key, Value) pair of the tag set. */
  function TagList(tagSet: seq<(string, string)>): (tagList: seq<map<string, string>>)
    ensures |tagList| == |tagSet| && forall i :: 0 <= i < |tagSet| ==> tagList[i] == map[tagSet[i].0 := tagSet[i].1]
  {
    seq(|tagSet|, i requires 0 <= i < |tagSet| => map[tagSet[i].0 := tagSet[i].1])
  }

  /** The object's prefix: the monitored prefix when set, else the key up to its last '/'. */
  function SourcePrefixOf(key: string, monitoredPrefix: string): string {
    if monitoredPrefix != "" then monitoredPrefix
    else if '/' in key then Dirname(key, '/')
    else ""
  }

  /**
   * `get_s3_object_metadata`: None for the HEAD request's client error (the empty dict);
   * a failing tag request (`tagSet` None) leaves the tags empty.
   */
  function ObjectMetadata(bucket: string, key: string, monitoredPrefix: string,
                          head: Option<HeadResponse>, tagSet: Option<seq<(string, string)>>): (meta: Option<ObjectRecord>)
    ensures meta.None? <==> head.None?
    ensures meta.Some? ==>
              meta.value.sourceBucket == Some(bucket) &&
              meta.value.sourcePrefix == Some(SourcePrefixOf(key, monitoredPrefix)) &&
              meta.value.objectName == Some(Basename(key, '/')) &&
              meta.value.creationTime == Some(head.value.lastModified) &&
              meta.value.etag == Some(Strip(head.value.eTag.GetOr(""), '"')) &&
              meta.value.size == Some(head.value.contentLength.GetOr(0)) &&
              meta.value.storageClass == Some(head.value.storageClass.GetOr("STANDARD")) &&
              meta.value.tags == Some(if tagSet.Some? then TagList(tagSet.value) else []) &&
              meta.value.relativeKey.None? && meta.value.fullKey.None?
  {
    if head.None? then None
    else
      var h := head.value;
      Some(ObjectRecord(
        sourceBucket := Some(bucket),
        sourcePrefix := Some(SourcePrefixOf(key, monitoredPrefix)),
        objectName := Some(Basename(key, '/')),
        relativeKey := None,
        fullKey := None,
        creationTime := Some(h.lastModified),
        etag := Some(Strip(h.eTag.GetOr(""), '"')),
        size := Some(h.contentLength.GetOr(0)),
        storageClass := Some(h.storageClass.GetOr("STANDARD")),
        tags := Some(if tagSet.Some? then TagList(tagSet.value) else [])))
  }

  /**
   * Without a monitored prefix the key is the prefix, '/', and the object name when it
   * contains a '/', and is the object name alone otherwise; the name never holds a '/'.
   */
  lemma MetadataSplitsKey(key: string)
    ensures '/' !in Basename(key, '/')
    ensures '/' in key ==> SourcePrefixOf(key, "") + "/" + Basename(key, '/') == key
    ensures '/' !in key ==> SourcePrefixOf(key, "") == "" && Basename(key, '/') == key
  {
    DirnameBasename(key, '/');
  }

  /** The stored etag loses its surrounding quotes: '"abc"' becomes 'abc'. */
  lemma EtagUnquoted(inner: string)
    requires '"' !in inner
    ensures Strip("\"" + inner + "\"", '"') == inner
  {
    var quoted := "\"" + inner + "\"";
    assert quoted[..|quoted| - 1] == "\"" + inner;
    if |inner| > 0 {
      assert inner[|inner| - 1] in inner;
      assert RStrip("\"" + inner, '"') == "\"" + inner;
      assert ("\"" + inner)[1..] == inner;
      assert inner[0] in inner;
    } else {
      assert RStrip("\"", '"') == "";
    }
  }

  /**
   * `get_target_info_from_dynamodb`: the parameter name and destinations of the prefix
   * lookup, or ('', []) when no destinations (or an empty list) come back.
   */
  function TargetInfo(store: ParamStore, stack: string, bucket: string, monitoredPrefix: string)
    : (r: (string, seq<Destination>))
    ensures var (name, dests) := GetParameterWithPrefix(store, stack, bucket, monitoredPrefix);
            if dests.None? || dests.value == [] then r == ("", []) else r == (name, dests.value)
  {
    var (name, dests) := GetParameterWithPrefix(store, stack, bucket, monitoredPrefix);
    if dests.None? || |dests.value| == 0 then ("", []) else (name, dests.value)
  }

  /** A non-empty target list always comes with the name of the parameter it was read from. */
  lemma TargetInfoNamed(store: ParamStore, stack: string, bucket: string, monitoredPrefix: string)
    requires TargetInfo(store, stack, bucket, monitoredPrefix).1 != []
    ensures var name := TargetInfo(store, stack, bucket, monitoredPrefix).0;
            name != "" && DestinationsAt(store, name) == Some(TargetInfo(store, stack, bucket, monitoredPrefix).1)
  {
  }
}
