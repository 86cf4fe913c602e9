/**
 * The source agent's poll iteration: each announced object is downloaded and described,
 * the survivors are written into a manifest, compressed into one archive and uploaded
 * to the outbound (staging) bucket, and the batch's messages are deleted only when all
 * of that succeeded. The S3, SQS and DynamoDB answers, the compression result, the clock
 * and the uuids are parameters; the batch records the calls it makes.
 */
module SourceServer {
  import opened Wrappers
  import opened Strings
  import opened Records
  import opened S3Events
  import opened MessageBatches
  import opened ParametersRepository
  import opened SourceAwsUtils
  import opened SourceManifest
  import Compression

  /* ---------------------------------------------------------------------------------- */
  /* process_s3_object                                                                  */
  /* ---------------------------------------------------------------------------------- */

  /**
   * The key below the monitored prefix: when the key string-starts-with a non-empty
   * monitored prefix, what follows it with leading '/' removed; otherwise the whole key.
   */
  function RelativeKey(key: string, monitoredPrefix: string): (rk: string)
    ensures monitoredPrefix == "" || !StartsWith(key, monitoredPrefix) ==> rk == key
    ensures monitoredPrefix != "" && StartsWith(key, monitoredPrefix) ==>
              |monitoredPrefix| <= |key| - |rk| && rk == key[|key| - |rk|..] &&
              (forall i :: |monitoredPrefix| <= i < |key| - |rk| ==> key[i] == '/') &&
              (rk == "" || rk[0] != '/')
  {
    if monitoredPrefix != "" && StartsWith(key, monitoredPrefix) then
      var rest := key[|monitoredPrefix|..];
      assert forall i :: |monitoredPrefix| <= i < |key| ==> key[i] == rest[i - |monitoredPrefix|];
      LStrip(rest, '/')
    else key
  }

  /** What S3 answers for one object: the download result, the HEAD response and the tag set. */
  datatype ObjectFetch = ObjectFetch(
    downloaded: bool,
    head: Option<HeadResponse>,
    tagSet: Option<seq<(string, string)>>,
    fileId: string)

  /** The file an object is downloaded to: '<uuid>_<basename>' in the batch's temporary directory. */
  function LocalPath(tempDir: string, key: string, fileId: string): string {
    PathJoin(tempDir, fileId + "_" + Basename(key, '/'))
  }

  /**
   * `process_s3_object`: the object's metadata, completed with full_key and relative_key,
   * and its local file; None (the source's `({}, '')`) when the download or the HEAD
   * request fails.
   */
  function ProcessS3Object(obj: S3Object, tempDir: string, monitoredPrefix: string, fetch: ObjectFetch)
    : (r: Option<(ObjectRecord, string)>)
    ensures r.None? <==> !fetch.downloaded || fetch.head.None?
    ensures r.Some? ==>
              var (meta, localPath) := r.value;
              meta.fullKey == Some(obj.key) &&
              meta.relativeKey == Some(RelativeKey(obj.key, monitoredPrefix)) &&
              meta.sourceBucket == Some(obj.bucket) &&
              meta.sourcePrefix == Some(SourcePrefixOf(obj.key, monitoredPrefix)) &&
              meta.objectName == Some(Basename(obj.key, '/')) &&
              localPath == LocalPath(tempDir, obj.key, fetch.fileId)
  {
    if !fetch.downloaded then None
    else
      var meta := ObjectMetadata(obj.bucket, obj.key, monitoredPrefix, fetch.head, fetch.tagSet);
      if meta.None? then None
      else
        Some((meta.value.(fullKey := Some(obj.key), relativeKey := Some(RelativeKey(obj.key, monitoredPrefix))),
              LocalPath(tempDir, obj.key, fetch.fileId)))
  }

  /**
   * A key under a monitored prefix is rebuilt on the target: the target agent joins the
   * object's source prefix (the monitored prefix) and its relative key with one '/'.
   */
  lemma KeyRebuiltUnderPrefix(monitoredPrefix: string, rest: string)
    requires monitoredPrefix != "" && !EndsWith(monitoredPrefix, "/")
    requires rest == "" || rest[0] != '/'
    ensures var key := monitoredPrefix + "/" + rest;
            SourcePrefixOf(key, monitoredPrefix) + "/" + RelativeKey(key, monitoredPrefix) == key
  {
    var key := monitoredPrefix + "/" + rest;
    assert key[..|monitoredPrefix|] == monitoredPrefix;
    assert key[|monitoredPrefix|..] == "/" + rest;
    assert ("/" + rest)[1..] == rest;
    assert LStrip(rest, '/') == rest;
    assert RelativeKey(key, monitoredPrefix) == LStrip("/" + rest, '/') == rest;
  }

  /**
   * At the bucket root (no monitored prefix) the relative key is the whole key and the
   * source prefix is its folder, so the target's prefix/relative key repeats the folder:
   * 'test/object1.txt' becomes 'test/test/object1.txt'.
   */
  lemma RootKeyRepeatsFolder(folder: string, name: string)
    requires folder != "" && '/' !in name
    ensures var key := folder + "/" + name;
            RelativeKey(key, "") == key &&
            SourcePrefixOf(key, "") + "/" + RelativeKey(key, "") == folder + "/" + folder + "/" + name
  {
    var key := folder + "/" + name;
    SplitAppend(folder, name, '/');
    assert Basename(key, '/') == name;
    DirnameBasename(key, '/');
    assert Dirname(key, '/') == key[..|folder|] == folder;
  }

  /* ---------------------------------------------------------------------------------- */
  /* process_message_batch                                                              */
  /* ---------------------------------------------------------------------------------- */

  /** The outbound key of a batch's archive. */
  function StagingKey(bucket: string, monitoredPrefix: string, sourcePrefix: string, archiveId: string): string {
    if monitoredPrefix != "" then bucket + "/" + RStrip(monitoredPrefix, '/') + "/" + archiveId + ".tar.zst"
    else if sourcePrefix == "" then bucket + "/" + archiveId + ".tar.zst"
    else bucket + "/" + sourcePrefix + "/" + archiveId + ".tar.zst"
  }

  /**
   * Every staging key is the bucket, the folder the archive is filed under and the
   * archive's file name; a monitored prefix is the folder with its trailing '/' removed,
   * so 'p' and 'p/' file the archive alike.
   */
  lemma StagingKeyFolder(bucket: string, monitoredPrefix: string, sourcePrefix: string, archiveId: string)
    ensures var key := StagingKey(bucket, monitoredPrefix, sourcePrefix, archiveId);
            var folder := if monitoredPrefix != "" then RStrip(monitoredPrefix, '/') else sourcePrefix;
            key == bucket + "/" + (if folder == "" && monitoredPrefix == "" then "" else folder + "/") + archiveId + ".tar.zst"
    ensures monitoredPrefix != "" ==>
              StagingKey(bucket, monitoredPrefix + "/", sourcePrefix, archiveId) ==
              StagingKey(bucket, monitoredPrefix, sourcePrefix, archiveId)
  {
    if monitoredPrefix != "" {
      var p := monitoredPrefix + "/";
      assert p[..|p| - 1] == monitoredPrefix;
      assert RStrip(p, '/') == RStrip(monitoredPrefix, '/');
    }
  }

  /** The answers of the batch's collaborators, other than the per-object S3 answers. */
  datatype SourceEnv = SourceEnv(
    stack: string,
    outboundBucket: string,
    monitoredPrefix: string,
    tempDir: string,
    store: ParamStore,
    manifestWritten: bool,
    compression: Option<Compressed>,
    uploadOk: bool,
    processingTime: real,
    archiveId: string)

  /** A successful `compress_objects` answer: the archive, its sizes and its level. */
  datatype Compressed = Compressed(path: string, originalSize: int, compressedSize: int, level: int)

  /** The arguments of the `compress_objects` call. */
  datatype CompressCall = CompressCall(
    objects: seq<Compression.ObjectPath>,
    manifestPath: string,
    outputDir: string,
    bucket: string,
    prefix: string,
    ddbKeyName: string,
    targets: seq<Destination>,
    fileCount: nat)

  /** The arguments of the `update_compression_metrics` call. */
  datatype MetricsCall = MetricsCall(
    bucket: string,
    prefix: string,
    level: int,
    originalSize: int,
    compressedSize: int,
    processingTime: real,
    numRegions: nat,
    ddbKeyName: string,
    fileCount: nat)

  /** The upload of the archive to the outbound bucket. */
  datatype StagedUpload = StagedUpload(localPath: string, bucket: string, key: string)

  /**
   * What one batch does: its return value, the test events it deletes, the objects that
   * survived download, the manifest written, the calls made and the messages deleted.
   * `tempDirCleaned` says a temporary directory was created (and so removed on exit).
   */
  datatype SourceBatchOutcome = SourceBatchOutcome(
    processed: int,
    testDeletes: seq<string>,
    survivors: seq<ObjectRecord>,
    manifest: Option<Manifest>,
    compress: Option<CompressCall>,
    upload: Option<StagedUpload>,
    metrics: Option<MetricsCall>,
    deletes: seq<string>,
    tempDirCleaned: bool)

  /** The per-object results, in object order; object i is fetched as `fetches(i)`. */
  function Results(objects: seq<S3Object>, fetches: nat -> ObjectFetch, tempDir: string, monitoredPrefix: string)
    : (rs: seq<Option<(ObjectRecord, string)>>)
    ensures |rs| == |objects|
  {
    seq(|objects|, i requires 0 <= i < |objects| => ProcessS3Object(objects[i], tempDir, monitoredPrefix, fetches(i)))
  }

  /** The successful results, in order. */
  function Survivors(results: seq<Option<(ObjectRecord, string)>>): (ok: seq<(ObjectRecord, string)>)
    ensures |ok| <= |results|
  {
    if |results| == 0 then []
    else
      var r := results[|results| - 1];
      Survivors(results[..|results| - 1]) + (if r.Some? then [r.value] else [])
  }

  /** A result survives exactly when it is a success. */
  lemma {:induction false} SurvivorsMembership(results: seq<Option<(ObjectRecord, string)>>, x: (ObjectRecord, string))
    ensures x in Survivors(results) <==> Some(x) in results
  {
    if |results| > 0 {
      var init := results[..|results| - 1];
      SurvivorsMembership(init, x);
      assert results == init + [results[|results| - 1]];
    }
  }

  /** The survivors' metadata, in order. */
  function Metas(survivors: seq<(ObjectRecord, string)>): (ms: seq<ObjectRecord>)
    ensures |ms| == |survivors| && forall i :: 0 <= i < |survivors| ==> ms[i] == survivors[i].0
  {
    seq(|survivors|, i requires 0 <= i < |survivors| => survivors[i].0)
  }

  /** The object path handed to compression for one survivor. */
  function PathOf(s: (ObjectRecord, string)): Compression.ObjectPath {
    Compression.ObjectPath(s.1, s.0.objectName.GetOr(""), s.0.relativeKey)
  }

  /** The survivors' object paths, in order. */
  function Paths(survivors: seq<(ObjectRecord, string)>): (ps: seq<Compression.ObjectPath>)
    ensures |ps| == |survivors| && forall i :: 0 <= i < |survivors| ==> ps[i] == PathOf(survivors[i])
  {
    seq(|survivors|, i requires 0 <= i < |survivors| => PathOf(survivors[i]))
  }

  /**
   * The batch after its regular messages announced at least one object: bucket and
   * prefix come from the first survivor, destinations from the monitored-prefix lookup;
   * each failed step stops the batch with `count` and no deletion, except a failed
   * upload, which returns 0.
   */
  function Pipeline(count: int, tests: seq<string>, handles: seq<string>, survivors: seq<(ObjectRecord, string)>,
                    env: SourceEnv): SourceBatchOutcome {
    var metas := Metas(survivors);
    var stopped := SourceBatchOutcome(count, tests, metas, None, None, None, None, [], true);
    if |survivors| == 0 then stopped
    else
      var bucket := metas[0].sourceBucket.GetOr("");
      var sourcePrefix := metas[0].sourcePrefix.GetOr("");
      var (ddbKeyName, targets) := TargetInfo(env.store, env.stack, bucket, env.monitoredPrefix);
      if |targets| == 0 || !env.manifestWritten then stopped
      else
        var manifestPath := PathJoin(env.tempDir, "manifest.json");
        var call := CompressCall(Paths(survivors), manifestPath, env.tempDir, bucket, sourcePrefix, ddbKeyName,
                                 targets, |metas|);
        var compressing := stopped.(manifest := Some(Manifest(Some(targets), Some(Entries(metas)))),
                                    compress := Some(call));
        if env.compression.None? then compressing
        else
          var c := env.compression.value;
          var key := StagingKey(bucket, env.monitoredPrefix, sourcePrefix, env.archiveId);
          var uploading := compressing.(upload := Some(StagedUpload(c.path, env.outboundBucket, key)));
          if !env.uploadOk then uploading.(processed := 0)
          else
            uploading.(metrics := Some(MetricsCall(bucket, sourcePrefix, c.level, c.originalSize, c.compressedSize,
                                                   env.processingTime, |targets|, ddbKeyName, |metas|)),
                       deletes := handles)
  }

  /**
   * `process_message_batch` on the messages received: an empty receive returns 0; test
   * events are deleted at once and a batch of only test events counts every message;
   * otherwise the count is that of the regular messages, and they are deleted only when
   * the archive was uploaded.
   */
  function BatchOutcomeOf(messages: seq<Message>, unquote: string -> string, fetches: nat -> ObjectFetch,
                          env: SourceEnv): SourceBatchOutcome {
    if |messages| == 0 then SourceBatchOutcome(0, [], [], None, None, None, None, [], false)
    else
      var tests := TestHandles(messages);
      var regular := Regular(messages);
      if |regular| == 0 then SourceBatchOutcome(|messages|, tests, [], None, None, None, None, [], false)
      else
        var objects := AllObjects(regular, unquote);
        if |objects| == 0 then SourceBatchOutcome(|regular|, tests, [], None, None, None, None, [], true)
        else
          var survivors := Survivors(Results(objects, fetches, env.tempDir, env.monitoredPrefix));
          Pipeline(|regular|, tests, Handles(regular), survivors, env)
  }

  /** The download fan-out, as a sequential order-preserving map. */
  method ProcessObjects(objects: seq<S3Object>, fetches: nat -> ObjectFetch, tempDir: string, monitoredPrefix: string)
    returns (results: seq<Option<(ObjectRecord, string)>>)
    ensures results == Results(objects, fetches, tempDir, monitoredPrefix)
  {
    results := [];
    var i := 0;
    while i < |objects|
      invariant 0 <= i <= |objects|
      invariant results == Results(objects[..i], fetches, tempDir, monitoredPrefix)
    {
      results := results + [ProcessS3Object(objects[i], tempDir, monitoredPrefix, fetches(i))];
      i := i + 1;
    }
    assert objects[..i] == objects;
  }

  /** The loop keeping the successful results' metadata and object paths. */
  method CollectResults(results: seq<Option<(ObjectRecord, string)>>)
    returns (metas: seq<ObjectRecord>, paths: seq<Compression.ObjectPath>)
    ensures metas == Metas(Survivors(results)) && paths == Paths(Survivors(results))
  {
    metas, paths := [], [];
    var i := 0;
    while i < |results|
      invariant 0 <= i <= |results|
      invariant metas == Metas(Survivors(results[..i])) && paths == Paths(Survivors(results[..i]))
    {
      assert results[..i + 1][..i] == results[..i];
      var r := results[i];
      if r.Some? {
        var (meta, localPath) := r.value;
        metas := metas + [meta];
        paths := paths + [Compression.ObjectPath(localPath, meta.objectName.GetOr(""), meta.relativeKey)];
      }
      i := i + 1;
    }
    assert results[..i] == results;
  }

  /** One iteration of the polling loop. */
  method ProcessMessageBatch(messages: seq<Message>, unquote: string -> string, fetches: nat -> ObjectFetch,
                             env: SourceEnv)
    returns (outcome: SourceBatchOutcome)
    ensures outcome == BatchOutcomeOf(messages, unquote, fetches, env)
  {
    if |messages| == 0 {
      return SourceBatchOutcome(0, [], [], None, None, None, None, [], false);
    }
    var tests, regular := SplitTestEvents(messages);
    if |regular| == 0 {
      return SourceBatchOutcome(|messages|, tests, [], None, None, None, None, [], false);
    }
    var handles, objects := CollectObjects(regular, unquote);
    if |objects| == 0 {
      return SourceBatchOutcome(|regular|, tests, [], None, None, None, None, [], true);
    }
    var results := ProcessObjects(objects, fetches, env.tempDir, env.monitoredPrefix);
    var metas, paths := CollectResults(results);
    outcome := SourceBatchOutcome(|regular|, tests, metas, None, None, None, None, [], true);
    if |metas| == 0 {
      return;
    }
    var bucket := metas[0].sourceBucket.GetOr("");
    var sourcePrefix := metas[0].sourcePrefix.GetOr("");
    var (ddbKeyName, targets) := TargetInfo(env.store, env.stack, bucket, env.monitoredPrefix);
    if |targets| == 0 || !env.manifestWritten {
      return;
    }
    var manifestPath := PathJoin(env.tempDir, "manifest.json");
    outcome := outcome.(manifest := Some(Manifest(Some(targets), Some(Entries(metas)))),
                        compress := Some(CompressCall(paths, manifestPath, env.tempDir, bucket, sourcePrefix,
                                                      ddbKeyName, targets, |metas|)));
    if env.compression.None? {
      return;
    }
    var c := env.compression.value;
    var key := StagingKey(bucket, env.monitoredPrefix, sourcePrefix, env.archiveId);
    outcome := outcome.(upload := Some(StagedUpload(c.path, env.outboundBucket, key)));
    if !env.uploadOk {
      outcome := outcome.(processed := 0);
      return;
    }
    outcome := outcome.(metrics := Some(MetricsCall(bucket, sourcePrefix, c.level, c.originalSize, c.compressedSize,
                                                    env.processingTime, |targets|, ddbKeyName, |metas|)),
                        deletes := handles);
  }

  /**
   * The regular messages are deleted exactly when the archive was uploaded, and then
   * together with the test events every received message is deleted once.
   */
  lemma DeletedOnlyAfterUpload(messages: seq<Message>, unquote: string -> string, fetches: nat -> ObjectFetch,
                               env: SourceEnv)
    ensures var o := BatchOutcomeOf(messages, unquote, fetches, env);
            (o.deletes != [] <==> o.upload.Some? && env.uploadOk) &&
            (o.deletes != [] ==> o.metrics.Some? &&
                                 multiset(o.testDeletes + o.deletes) == multiset(Handles(messages)))
  {
    if |messages| > 0 && |Regular(messages)| > 0 && |AllObjects(Regular(messages), unquote)| > 0 {
      var regular := Regular(messages);
      var survivors := Survivors(Results(AllObjects(regular, unquote), fetches, env.tempDir, env.monitoredPrefix));
      PipelineDeletes(|regular|, TestHandles(messages), Handles(regular), survivors, env);
      TestSplit(messages);
    }
  }

  /** The pipeline deletes the handles it is given exactly when the upload succeeded. */
  lemma PipelineDeletes(count: int, tests: seq<string>, handles: seq<string>, survivors: seq<(ObjectRecord, string)>,
                        env: SourceEnv)
    requires handles != []
    ensures var o := Pipeline(count, tests, handles, survivors, env);
            o.testDeletes == tests &&
            (o.deletes != [] <==> o.upload.Some? && env.uploadOk) &&
            (o.deletes != [] ==> o.deletes == handles && o.metrics.Some?)
  {
  }

  /**
   * The count returned never exceeds the messages received; it is 0 exactly for an
   * empty receive or a failed upload.
   */
  lemma CountBounded(messages: seq<Message>, unquote: string -> string, fetches: nat -> ObjectFetch, env: SourceEnv)
    ensures var o := BatchOutcomeOf(messages, unquote, fetches, env);
            0 <= o.processed <= |messages| &&
            (o.processed == 0 <==> |messages| == 0 || (o.upload.Some? && !env.uploadOk))
  {
    if |messages| > 0 && |Regular(messages)| > 0 {
      TestSplitCount(messages);
      var regular := Regular(messages);
      if |AllObjects(regular, unquote)| > 0 {
        var survivors := Survivors(Results(AllObjects(regular, unquote), fetches, env.tempDir, env.monitoredPrefix));
        PipelineCount(|regular|, TestHandles(messages), Handles(regular), survivors, env);
      }
    }
  }

  /** The pipeline returns its count, or 0 after a failed upload. */
  lemma PipelineCount(count: int, tests: seq<string>, handles: seq<string>, survivors: seq<(ObjectRecord, string)>,
                      env: SourceEnv)
    requires count > 0
    ensures var o := Pipeline(count, tests, handles, survivors, env);
            0 <= o.processed <= count && (o.processed == 0 <==> o.upload.Some? && !env.uploadOk)
  {
  }

  /**
   * Level choice and the metrics update use the same settings key (the destination
   * parameter's name), bucket and prefix; the benefit is weighted by the number of
   * destinations and the file count is the number of surviving objects.
   */
  lemma SameSettingsKey(messages: seq<Message>, unquote: string -> string, fetches: nat -> ObjectFetch, env: SourceEnv)
    ensures var o := BatchOutcomeOf(messages, unquote, fetches, env);
            o.metrics.Some? ==>
              o.compress.Some? &&
              o.metrics.value.ddbKeyName == o.compress.value.ddbKeyName &&
              o.metrics.value.bucket == o.compress.value.bucket &&
              o.metrics.value.prefix == o.compress.value.prefix &&
              o.metrics.value.numRegions == |o.compress.value.targets| > 0 &&
              o.metrics.value.fileCount == o.compress.value.fileCount == |o.survivors|
    ensures var o := BatchOutcomeOf(messages, unquote, fetches, env);
            o.compress.Some? ==>
              o.compress.value.ddbKeyName != "" &&
              DestinationsAt(env.store, o.compress.value.ddbKeyName) == Some(o.compress.value.targets)
  {
    if |messages| > 0 && |Regular(messages)| > 0 && |AllObjects(Regular(messages), unquote)| > 0 {
      var regular := Regular(messages);
      var survivors := Survivors(Results(AllObjects(regular, unquote), fetches, env.tempDir, env.monitoredPrefix));
      PipelineSettingsKey(|regular|, TestHandles(messages), Handles(regular), survivors, env);
    }
  }

  lemma PipelineSettingsKey(count: int, tests: seq<string>, handles: seq<string>, survivors: seq<(ObjectRecord, string)>,
                            env: SourceEnv)
    ensures var o := Pipeline(count, tests, handles, survivors, env);
            o.metrics.Some? ==>
              o.compress.Some? &&
              o.metrics.value.ddbKeyName == o.compress.value.ddbKeyName &&
              o.metrics.value.bucket == o.compress.value.bucket &&
              o.metrics.value.prefix == o.compress.value.prefix &&
              o.metrics.value.numRegions == |o.compress.value.targets| > 0 &&
              o.metrics.value.fileCount == o.compress.value.fileCount == |o.survivors|
    ensures var o := Pipeline(count, tests, handles, survivors, env);
            o.compress.Some? ==>
              o.compress.value.ddbKeyName != "" &&
              DestinationsAt(env.store, o.compress.value.ddbKeyName) == Some(o.compress.value.targets)
  {
    var o := Pipeline(count, tests, handles, survivors, env);
    if o.compress.Some? {
      TargetInfoNamed(env.store, env.stack, o.compress.value.bucket, env.monitoredPrefix);
    }
  }

  /**
   * The manifest written lists every surviving object, in order, and the destination
   * list the archive is compressed for; the archive holds one object path per survivor.
   */
  lemma ManifestMatchesArchive(messages: seq<Message>, unquote: string -> string, fetches: nat -> ObjectFetch,
                               env: SourceEnv)
    ensures var o := BatchOutcomeOf(messages, unquote, fetches, env);
            o.compress.Some? ==>
              o.manifest == Some(Manifest(Some(o.compress.value.targets), Some(Entries(o.survivors)))) &&
              |o.compress.value.objects| == |o.survivors| > 0 &&
              forall i :: 0 <= i < |o.survivors| ==>
                o.compress.value.objects[i].relativeKey == o.survivors[i].relativeKey &&
                o.compress.value.objects[i].objectName == o.survivors[i].objectName.GetOr("")
  {
    if |messages| > 0 && |Regular(messages)| > 0 && |AllObjects(Regular(messages), unquote)| > 0 {
      var regular := Regular(messages);
      var survivors := Survivors(Results(AllObjects(regular, unquote), fetches, env.tempDir, env.monitoredPrefix));
      PipelineManifest(|regular|, TestHandles(messages), Handles(regular), survivors, env);
    }
  }

  lemma PipelineManifest(count: int, tests: seq<string>, handles: seq<string>, survivors: seq<(ObjectRecord, string)>,
                         env: SourceEnv)
    ensures var o := Pipeline(count, tests, handles, survivors, env);
            o.compress.Some? ==>
              o.manifest == Some(Manifest(Some(o.compress.value.targets), Some(Entries(o.survivors)))) &&
              |o.compress.value.objects| == |o.survivors| > 0 &&
              forall i :: 0 <= i < |o.survivors| ==>
                o.compress.value.objects[i].relativeKey == o.survivors[i].relativeKey &&
                o.compress.value.objects[i].objectName == o.survivors[i].objectName.GetOr("")
  {
  }

  lemma PipelineSurvivors(count: int, tests: seq<string>, handles: seq<string>, survivors: seq<(ObjectRecord, string)>,
                          env: SourceEnv)
    ensures Pipeline(count, tests, handles, survivors, env).survivors == Metas(survivors)
  {
  }

  /** Every surviving object was announced by a regular message and its download and HEAD request succeeded. */
  lemma SurvivorsAnnounced(messages: seq<Message>, unquote: string -> string, fetches: nat -> ObjectFetch,
                           env: SourceEnv, meta: ObjectRecord)
    requires meta in BatchOutcomeOf(messages, unquote, fetches, env).survivors
    ensures exists i :: 0 <= i < |AllObjects(Regular(messages), unquote)| &&
                        fetches(i).downloaded && fetches(i).head.Some? &&
                        meta.fullKey == Some(AllObjects(Regular(messages), unquote)[i].key) &&
                        meta.sourceBucket == Some(AllObjects(Regular(messages), unquote)[i].bucket)
  {
    var objects := AllObjects(Regular(messages), unquote);
    var results := Results(objects, fetches, env.tempDir, env.monitoredPrefix);
    var survivors := Survivors(results);
    assert BatchOutcomeOf(messages, unquote, fetches, env).survivors == Metas(survivors) by {
      var regular := Regular(messages);
      PipelineSurvivors(|regular|, TestHandles(messages), Handles(regular), survivors, env);
    }
    var k :| 0 <= k < |survivors| && Metas(survivors)[k] == meta;
    SurvivorsMembership(results, survivors[k]);
    var i :| 0 <= i < |results| && results[i] == Some(survivors[k]);
    assert results[i] == ProcessS3Object(objects[i], env.tempDir, env.monitoredPrefix, fetches(i));
  }
}
