/**
 * The target agent's per-object upload, backup archiving and catalog records. S3 is a
 * collaborator (`S3Service`); uuids, the clock and the byte sizes the JSON, tar and zstd
 * libraries produce are parameters.
 */
module TargetServer {
  import opened Wrappers
  import opened Strings
  import opened Records
  import opened FileSystem
  import opened TargetManifest
  import opened TargetAwsUtils
  import opened Decompression

  /* ---------------------------------------------------------------------------------- */
  /* upload_object_to_targets                                                           */
  /* ---------------------------------------------------------------------------------- */

  /** The targets in the current region, in order. */
  function RegionTargets(targets: seq<Destination>, region: string): (ts: seq<Destination>)
    ensures |ts| <= |targets|
    ensures forall t :: t in ts <==> t in targets && t.region == Some(region)
  {
    if |targets| == 0 then []
    else
      var t := targets[|targets| - 1];
      RegionTargets(targets[..|targets| - 1], region) + (if t.region == Some(region) then [t] else [])
  }

  /** The key an object is uploaded under: its source prefix, '/', and its relative key. */
  function TargetKey(info: ObjectInfo): (key: string)
    ensures info.sourcePrefix == "" ==> key == info.relativeKey
    ensures info.sourcePrefix != "" ==> StartsWith(key, info.sourcePrefix + "/") &&
                                        key[|info.sourcePrefix| + 1..] == info.relativeKey
  {
    if info.sourcePrefix != "" then info.sourcePrefix + "/" + info.relativeKey else info.relativeKey
  }

  /** The storage class of an upload: the target's override when set, else the object's. */
  function StorageClassFor(t: Destination, info: ObjectInfo): (storageClass: string)
    ensures Truthy(t.storageClass) ==> storageClass == t.storageClass.value
    ensures !Truthy(t.storageClass) ==> storageClass == info.storageClass
  {
    if Truthy(t.storageClass) then t.storageClass.value else info.storageClass
  }

  /** The request sent for one target that has a bucket. */
  function RequestFor(t: Destination, info: ObjectInfo, tags: map<string, string>): UploadRequest
    requires Truthy(t.bucket)
  {
    UploadRequest(info.localPath, t.bucket.value, TargetKey(info),
                  ExtraArgsFor(Some(StorageClassFor(t, info)), t.kmsKeyArn), TaggingFor(tags))
  }

  /** The requests sent for a target list: one per target with a bucket, in order. */
  function Requests(ts: seq<Destination>, info: ObjectInfo, tags: map<string, string>): (rs: seq<UploadRequest>)
    ensures |rs| <= |ts|
  {
    if |ts| == 0 then []
    else
      var t := ts[|ts| - 1];
      Requests(ts[..|ts| - 1], info, tags) + (if Truthy(t.bucket) then [RequestFor(t, info, tags)] else [])
  }

  /** Whether one target is served: it names a bucket and S3 accepts the upload (and the tags). */
  predicate Served(t: Destination, info: ObjectInfo, tags: map<string, string>, s3: S3Service) {
    Truthy(t.bucket) &&
    s3.uploadOk(t.bucket.value, TargetKey(info)) &&
    (|tags| == 0 || s3.taggingOk(t.bucket.value, TargetKey(info)))
  }

  /** What `upload_object_to_targets` reports and sends, as a function of its inputs. */
  function UploadOutcome(info: ObjectInfo, fileExists: bool, region: string, s3: S3Service): (bool, seq<UploadRequest>) {
    if info.localPath == "" || !fileExists || |info.targets| == 0 then (false, [])
    else
      var ts := RegionTargets(info.targets, region);
      var tags := TagsFor(info);
      (forall i :: 0 <= i < |ts| ==> Served(ts[i], info, tags, s3), Requests(ts, info, tags))
  }

  /**
   * `upload_object_to_targets`: False without a local file or without targets; True with
   * no upload when no target is in this region; otherwise every current-region target is
   * attempted and the result is True iff each has a bucket and its upload succeeds.
   */
  method UploadObjectToTargets(info: ObjectInfo, fileExists: bool, region: string, s3: S3Service)
    returns (ok: bool, requests: seq<UploadRequest>)
    ensures (ok, requests) == UploadOutcome(info, fileExists, region, s3)
  {
    if info.localPath == "" || !fileExists {
      return false, [];
    }
    var tags := PrepareObjectTags(info);
    if |info.targets| == 0 {
      return false, [];
    }
    var current := SelectRegionTargets(info.targets, region);
    if |current| == 0 {
      return true, [];
    }
    ok, requests := UploadToEach(current, info, tags, s3);
  }

  /** The loop that sorts targets into this region's and the others', keeping this region's. */
  method SelectRegionTargets(targets: seq<Destination>, region: string) returns (current: seq<Destination>)
    ensures current == RegionTargets(targets, region)
  {
    current := [];
    var i := 0;
    while i < |targets|
      invariant 0 <= i <= |targets|
      invariant current == RegionTargets(targets[..i], region)
    {
      assert targets[..i + 1][..i] == targets[..i];
      if targets[i].region == Some(region) {
        current := current + [targets[i]];
      }
      i := i + 1;
    }
    assert targets[..i] == targets;
  }

  lemma RequestsSnoc(ts: seq<Destination>, j: nat, info: ObjectInfo, tags: map<string, string>)
    requires j < |ts|
    ensures Requests(ts[..j + 1], info, tags) ==
            Requests(ts[..j], info, tags) + (if Truthy(ts[j].bucket) then [RequestFor(ts[j], info, tags)] else [])
  {
    assert ts[..j + 1][..j] == ts[..j];
  }

  lemma ServedSnoc(ts: seq<Destination>, j: nat, info: ObjectInfo, tags: map<string, string>, s3: S3Service)
    requires j < |ts|
    ensures (forall k :: 0 <= k < j + 1 ==> Served(ts[k], info, tags, s3)) <==>
            (forall k :: 0 <= k < j ==> Served(ts[k], info, tags, s3)) && Served(ts[j], info, tags, s3)
  {
  }

  /** The upload loop: every target is attempted; a missing bucket or a failed upload makes the result False. */
  method UploadToEach(ts: seq<Destination>, info: ObjectInfo, tags: map<string, string>, s3: S3Service)
    returns (ok: bool, requests: seq<UploadRequest>)
    ensures ok == (forall k :: 0 <= k < |ts| ==> Served(ts[k], info, tags, s3))
    ensures requests == Requests(ts, info, tags)
  {
    ok := true;
    requests := [];
    var j := 0;
    while j < |ts|
      invariant 0 <= j <= |ts|
      invariant ok == (forall k :: 0 <= k < j ==> Served(ts[k], info, tags, s3))
      invariant requests == Requests(ts[..j], info, tags)
    {
      RequestsSnoc(ts, j, info, tags);
      ServedSnoc(ts, j, info, tags, s3);
      var t := ts[j];
      if t.bucket.None? || t.bucket.value == "" {
        ok := false;
      } else {
        var storageClass := if Truthy(t.storageClass) then t.storageClass.value else info.storageClass;
        var uploaded, request := UploadToS3(info.localPath, t.bucket.value, TargetKey(info), tags,
                                            Some(storageClass), t.kmsKeyArn, s3);
        requests := requests + [request];
        if !uploaded {
          ok := false;
        }
      }
      j := j + 1;
    }
    assert ts[..j] == ts;
  }

  /** Every current-region target with a bucket receives exactly one request, and no other target does. */
  lemma {:induction false} RequestsPerTarget(ts: seq<Destination>, info: ObjectInfo, tags: map<string, string>, r: UploadRequest)
    ensures r in Requests(ts, info, tags) <==>
            exists i :: 0 <= i < |ts| && Truthy(ts[i].bucket) && r == RequestFor(ts[i], info, tags)
  {
    if |ts| > 0 {
      var init := ts[..|ts| - 1];
      RequestsPerTarget(init, info, tags, r);
      assert forall i :: 0 <= i < |init| ==> init[i] == ts[i];
    }
  }

  /** When every target has a bucket, every target is attempted, in order, even after a failure. */
  lemma {:induction false} AllTargetsAttempted(ts: seq<Destination>, info: ObjectInfo, tags: map<string, string>)
    requires forall i :: 0 <= i < |ts| ==> Truthy(ts[i].bucket)
    ensures |Requests(ts, info, tags)| == |ts|
    ensures forall i :: 0 <= i < |ts| ==> Requests(ts, info, tags)[i] == RequestFor(ts[i], info, tags)
  {
    if |ts| > 0 {
      AllTargetsAttempted(ts[..|ts| - 1], info, tags);
    }
  }

  /* ---------------------------------------------------------------------------------- */
  /* Backups                                                                            */
  /* ---------------------------------------------------------------------------------- */

  /** The targets in this region with backup mode on, in order. */
  function BackupTargets(targets: seq<Destination>, region: string): (ts: seq<Destination>)
    ensures forall t :: t in ts <==> t in targets && t.region == Some(region) && t.backup.GetOr(false)
  {
    if |targets| == 0 then []
    else
      var t := targets[|targets| - 1];
      BackupTargets(targets[..|targets| - 1], region) +
      (if t.region == Some(region) && t.backup.GetOr(false) then [t] else [])
  }

  /** The targets in this region without backup mode, in order. */
  function NormalTargets(targets: seq<Destination>, region: string): (ts: seq<Destination>)
    ensures forall t :: t in ts <==> t in targets && t.region == Some(region) && !t.backup.GetOr(false)
  {
    if |targets| == 0 then []
    else
      var t := targets[|targets| - 1];
      NormalTargets(targets[..|targets| - 1], region) +
      (if t.region == Some(region) && !t.backup.GetOr(false) then [t] else [])
  }

  /** Backup and normal targets split this region's targets between them. */
  lemma {:induction false} TargetsSplit(targets: seq<Destination>, region: string)
    ensures |BackupTargets(targets, region)| + |NormalTargets(targets, region)| == |RegionTargets(targets, region)|
  {
    if |targets| > 0 {
      TargetsSplit(targets[..|targets| - 1], region);
    }
  }

  /** An entry's subfolder: its relative key (default '') up to the last '/', or '' without one. */
  function Folder(obj: ObjectRecord): string {
    Dirname(obj.relativeKey.GetOr(""), '/')
  }

  /** The set of subfolders of a manifest's entries. */
  function Folders(objects: seq<ObjectRecord>): (fs: set<string>)
    ensures forall f :: f in fs <==> exists i :: 0 <= i < |objects| && Folder(objects[i]) == f
  {
    set i | 0 <= i < |objects| :: Folder(objects[i])
  }

  /** The entries of one subfolder, in manifest order. */
  function InFolder(objects: seq<ObjectRecord>, f: string): seq<ObjectRecord> {
    if |objects| == 0 then []
    else
      var o := objects[|objects| - 1];
      InFolder(objects[..|objects| - 1], f) + (if Folder(o) == f then [o] else [])
  }

  /** Index of the group keyed `f`, or -1. */
  function GroupIndex(groups: seq<(string, seq<ObjectRecord>)>, f: string): (k: int)
    ensures -1 <= k < |groups|
    ensures k == -1 <==> forall i :: 0 <= i < |groups| ==> groups[i].0 != f
    ensures 0 <= k ==> groups[k].0 == f
  {
    if |groups| == 0 then -1
    else if groups[|groups| - 1].0 == f then |groups| - 1
    else GroupIndex(groups[..|groups| - 1], f)
  }

  /** `groups[f].append(o)` on a `defaultdict(list)`: a new subfolder opens a group at the end. */
  function AddToGroup(groups: seq<(string, seq<ObjectRecord>)>, f: string, o: ObjectRecord): seq<(string, seq<ObjectRecord>)> {
    var k := GroupIndex(groups, f);
    if k < 0 then groups + [(f, [o])] else groups[k := (f, groups[k].1 + [o])]
  }

  /** The `defaultdict(list)` grouping of entries by subfolder, in first-seen order. */
  function Groups(objects: seq<ObjectRecord>): seq<(string, seq<ObjectRecord>)> {
    if |objects| == 0 then []
    else
      var o := objects[|objects| - 1];
      AddToGroup(Groups(objects[..|objects| - 1]), Folder(o), o)
  }

  /** Groups with distinct keys, each holding exactly its subfolder's entries of `objects`. */
  ghost predicate Partitioned(groups: seq<(string, seq<ObjectRecord>)>, objects: seq<ObjectRecord>) {
    (forall i, j :: 0 <= i < j < |groups| ==> groups[i].0 != groups[j].0) &&
    (forall i :: 0 <= i < |groups| ==> groups[i].1 == InFolder(objects, groups[i].0)) &&
    (forall f :: f in Folders(objects) <==> exists i :: 0 <= i < |groups| && groups[i].0 == f)
  }

  /** A subfolder no entry has holds no entries. */
  lemma {:induction false} InFolderEmpty(objects: seq<ObjectRecord>, f: string)
    requires f !in Folders(objects)
    ensures InFolder(objects, f) == []
  {
    if |objects| > 0 {
      var init := objects[..|objects| - 1];
      assert Folders(init) <= Folders(objects) by {
        forall g | g in Folders(init) ensures g in Folders(objects) {
          var i :| 0 <= i < |init| && Folder(init[i]) == g;
          assert objects[i] == init[i];
        }
      }
      InFolderEmpty(init, f);
      assert Folder(objects[|objects| - 1]) in Folders(objects);
    }
  }

  /** Appending an entry adds it to its own subfolder's entries only. */
  lemma InFolderSnoc(objects: seq<ObjectRecord>, o: ObjectRecord, g: string)
    ensures InFolder(objects + [o], g) == InFolder(objects, g) + (if Folder(o) == g then [o] else [])
  {
    assert (objects + [o])[..|objects|] == objects;
  }

  /** Appending an entry adds its subfolder to the set. */
  lemma FoldersSnoc(objects: seq<ObjectRecord>, o: ObjectRecord)
    ensures Folders(objects + [o]) == Folders(objects) + {Folder(o)}
  {
    var all := objects + [o];
    forall g | g in Folders(all) ensures g in Folders(objects) + {Folder(o)} {
      var i :| 0 <= i < |all| && Folder(all[i]) == g;
      if i < |objects| {
        assert all[i] == objects[i];
      }
    }
    forall g | g in Folders(objects) ensures g in Folders(all) {
      var i :| 0 <= i < |objects| && Folder(objects[i]) == g;
      assert all[i] == objects[i];
    }
    assert Folder(all[|objects|]) == Folder(o);
  }

  /** Adding one entry keeps the grouping a partition. */
  lemma AddToGroupPartitioned(groups: seq<(string, seq<ObjectRecord>)>, objects: seq<ObjectRecord>, o: ObjectRecord)
    requires Partitioned(groups, objects)
    ensures Partitioned(AddToGroup(groups, Folder(o), o), objects + [o])
  {
    var grown := AddToGroup(groups, Folder(o), o);
    AddToGroupKeys(groups, Folder(o), o);
    AddToGroupContents(groups, objects, o);
    FoldersSnoc(objects, o);
    forall g | g in Folders(objects + [o]) ensures exists i :: 0 <= i < |grown| && grown[i].0 == g {
      if g != Folder(o) {
        var i :| 0 <= i < |groups| && groups[i].0 == g;
        assert grown[i].0 == g;
      }
    }
  }

  /** Adding to a group keeps the keys distinct and in place, and the new entry's subfolder gets a group. */
  lemma AddToGroupKeys(groups: seq<(string, seq<ObjectRecord>)>, f: string, o: ObjectRecord)
    requires forall i, j :: 0 <= i < j < |groups| ==> groups[i].0 != groups[j].0
    ensures var grown := AddToGroup(groups, f, o);
            (forall i, j :: 0 <= i < j < |grown| ==> grown[i].0 != grown[j].0) &&
            |groups| <= |grown| <= |groups| + 1 &&
            (forall i :: 0 <= i < |groups| ==> grown[i].0 == groups[i].0) &&
            (forall i :: |groups| <= i < |grown| ==> grown[i].0 == f) &&
            exists i :: 0 <= i < |grown| && grown[i].0 == f
  {
    var grown := AddToGroup(groups, f, o);
    var k := GroupIndex(groups, f);
    if k < 0 {
      assert grown[|groups|].0 == f;
    } else {
      assert grown[k].0 == f;
    }
  }

  /** Every group of the grown grouping holds exactly its subfolder's entries, the new one included. */
  lemma AddToGroupContents(groups: seq<(string, seq<ObjectRecord>)>, objects: seq<ObjectRecord>, o: ObjectRecord)
    requires Partitioned(groups, objects)
    ensures var grown := AddToGroup(groups, Folder(o), o);
            forall i :: 0 <= i < |grown| ==> grown[i].1 == InFolder(objects + [o], grown[i].0)
  {
    var all := objects + [o];
    var f := Folder(o);
    var grown := AddToGroup(groups, f, o);
    AddToGroupKeys(groups, f, o);
    forall i | 0 <= i < |grown| ensures grown[i].1 == InFolder(all, grown[i].0) {
      InFolderSnoc(objects, o, grown[i].0);
      if i == |groups| {
        InFolderEmpty(objects, f);
      }
    }
  }

  /** The grouping is a partition of the entries by subfolder, with one group per subfolder. */
  lemma {:induction false} GroupsPartition(objects: seq<ObjectRecord>)
    ensures Partitioned(Groups(objects), objects)
  {
    if |objects| == 0 {
      assert Folders(objects) == {};
    } else {
      var init := objects[..|objects| - 1];
      GroupsPartition(init);
      AddToGroupPartitioned(Groups(init), init, objects[|objects| - 1]);
      assert init + [objects[|objects| - 1]] == objects;
    }
  }

  /** In a partition, a subfolder has a group exactly when some entry is in it. */
  lemma GroupFound(groups: seq<(string, seq<ObjectRecord>)>, objects: seq<ObjectRecord>, f: string)
    requires Partitioned(groups, objects)
    ensures GroupIndex(groups, f) >= 0 <==> f in Folders(objects)
  {
  }

  /** The grouping's subfolder for a new entry is new exactly when no earlier entry is in it. */
  lemma GroupsFound(objects: seq<ObjectRecord>, f: string)
    ensures GroupIndex(Groups(objects), f) >= 0 <==> f in Folders(objects)
  {
    GroupsPartition(objects);
    GroupFound(Groups(objects), objects, f);
  }

  /** There is one group per subfolder. */
  lemma {:induction false} GroupsCount(objects: seq<ObjectRecord>)
    ensures |Groups(objects)| == |Folders(objects)|
  {
    if |objects| == 0 {
      assert Folders(objects) == {};
    } else {
      var init := objects[..|objects| - 1];
      var o := objects[|objects| - 1];
      var gs := Groups(init);
      assert Groups(objects) == AddToGroup(gs, Folder(o), o);
      assert init + [o] == objects;
      GroupsCount(init);
      GroupsFound(init, Folder(o));
      FoldersSnoc(init, o);
      if Folder(o) in Folders(init) {
        assert Folders(objects) == Folders(init);
      } else {
        assert |Folders(objects)| == |Folders(init)| + 1;
      }
    }
  }

  /**
   * The key a backup archive is uploaded under: the monitored prefix, the subfolder and
   * the file name, each part only when non-empty.
   */
  function BackupKey(monitoredPrefix: string, subfolder: string, filename: string): string {
    if monitoredPrefix != "" && subfolder != "" then monitoredPrefix + "/" + subfolder + "/" + filename
    else if monitoredPrefix != "" then monitoredPrefix + "/" + filename
    else if subfolder != "" then subfolder + "/" + filename
    else filename
  }

  /** The non-empty strings of a list, in order. */
  function NonEmpty(parts: seq<string>): (kept: seq<string>)
    ensures forall p :: p in kept <==> p in parts && p != ""
  {
    if |parts| == 0 then []
    else NonEmpty(parts[..|parts| - 1]) + (if parts[|parts| - 1] != "" then [parts[|parts| - 1]] else [])
  }

  /** The backup key is the '/'-join of the non-empty parts among prefix, subfolder and file name. */
  lemma BackupKeyJoin(monitoredPrefix: string, subfolder: string, filename: string)
    ensures BackupKey(monitoredPrefix, subfolder, filename) == Join(NonEmpty([monitoredPrefix, subfolder]) + [filename], '/')
  {
    var parts := [monitoredPrefix, subfolder];
    var first := if monitoredPrefix != "" then [monitoredPrefix] else [];
    assert NonEmpty([monitoredPrefix]) == first by {
      assert [monitoredPrefix][..0] == [];
      assert NonEmpty([monitoredPrefix]) == NonEmpty([]) + first;
    }
    var kept := first + (if subfolder != "" then [subfolder] else []);
    assert NonEmpty(parts) == kept by {
      assert parts[..1] == [monitoredPrefix];
      assert parts[1] == subfolder;
    }
    var all := kept + [filename];
    if monitoredPrefix != "" && subfolder != "" {
      assert all == [monitoredPrefix, subfolder, filename];
      assert all[..2] == [monitoredPrefix, subfolder] && all[..2][..1] == [monitoredPrefix];
      assert Join(all, '/') == Join([monitoredPrefix, subfolder], '/') + "/" + filename;
      assert Join([monitoredPrefix, subfolder], '/') == monitoredPrefix + "/" + subfolder;
    } else if monitoredPrefix != "" {
      assert all == [monitoredPrefix, filename] && all[..1] == [monitoredPrefix];
    } else if subfolder != "" {
      assert all == [subfolder, filename] && all[..1] == [subfolder];
    } else {
      assert all == [filename];
    }
  }

  /** The library-produced byte sizes: of a manifest's JSON, of a tar, and of a zstd frame at a level. */
  datatype Codec = Codec(jsonSize: Manifest -> nat, tarSize: seq<Member> -> nat, zstSize: (Content, int) -> nat)

  /** The clock reading of a catalog write: the epoch seconds and its UTC date parts. */
  datatype Clock = Clock(timestamp: int, year: string, month: string, day: string)

  /** One catalog line. */
  datatype CatalogRecord = CatalogRecord(
    backupFile: string,
    backupTimestamp: int,
    backupDate: string,
    sourceBucket: string,
    sourcePrefix: string,
    objectName: string,
    objectPath: string,
    objectSize: int,
    creationTime: string,
    creationDate: string,
    targetBuckets: seq<Option<string>>)

  /** A catalog file as uploaded: bucket, key and the JSON lines. */
  datatype CatalogFile = CatalogFile(bucket: string, key: string, records: seq<CatalogRecord>)

  /** The date part of a creation time, or today's date when there is none. */
  function CreationDate(creationTime: string, today: string): string {
    if creationTime != "" then Split(creationTime, ' ')[0] else today
  }

  /** The buckets of a target list, in order (None for a target without one). */
  function BucketsOf(targets: seq<Destination>): (bs: seq<Option<string>>)
    ensures |bs| == |targets| && forall i :: 0 <= i < |targets| ==> bs[i] == targets[i].bucket
  {
    seq(|targets|, i requires 0 <= i < |targets| => targets[i].bucket)
  }

  /** An entry's path in the catalog: its relative key (default: its name) under the batch's source prefix. */
  function ObjectPath(sourcePrefix: string, obj: ObjectRecord): string {
    var rel := obj.relativeKey.GetOr(obj.objectName.GetOr(""));
    if sourcePrefix != "" then sourcePrefix + "/" + rel else rel
  }

  /** The catalog line of one entry; bucket and prefix come from the batch's first entry. */
  function RecordOf(filename: string, clock: Clock, sourceBucket: string, sourcePrefix: string,
                    obj: ObjectRecord, targets: seq<Destination>): CatalogRecord {
    var today := clock.year + "-" + clock.month + "-" + clock.day;
    var creationTime := obj.creationTime.GetOr("");
    CatalogRecord(filename, clock.timestamp, today, sourceBucket, sourcePrefix, obj.objectName.GetOr(""),
                  ObjectPath(sourcePrefix, obj), obj.size.GetOr(0), creationTime, CreationDate(creationTime, today),
                  BucketsOf(targets))
  }

  /** The catalog key: bucket, the monitored prefix when set, then the date partitions and the file. */
  function CatalogKey(sourceBucket: string, monitoredPrefix: string, clock: Clock, filename: string): string {
    var partitions := "year=" + clock.year + "/month=" + clock.month + "/day=" + clock.day + "/" + filename + ".jsonl";
    if monitoredPrefix != "" then sourceBucket + "/" + monitoredPrefix + "/" + partitions
    else sourceBucket + "/" + partitions
  }

  /**
   * `write_catalog_metadata`: nothing without a catalog bucket or without entries;
   * otherwise one line per entry, in order, all under the first entry's bucket and prefix.
   */
  function Catalog(catalogBucket: Option<string>, monitoredPrefix: string, filename: string, clock: Clock,
                   objects: seq<ObjectRecord>, targets: seq<Destination>): (c: Option<CatalogFile>)
    ensures c.Some? <==> Truthy(catalogBucket) && |objects| > 0
    ensures c.Some? ==>
              var sourceBucket := objects[0].sourceBucket.GetOr("");
              var sourcePrefix := objects[0].sourcePrefix.GetOr("");
              c.value.bucket == catalogBucket.value &&
              c.value.key == CatalogKey(sourceBucket, monitoredPrefix, clock, filename) &&
              |c.value.records| == |objects| &&
              forall i :: 0 <= i < |objects| ==>
                c.value.records[i] == RecordOf(filename, clock, sourceBucket, sourcePrefix, objects[i], targets)
  {
    if !Truthy(catalogBucket) || |objects| == 0 then None
    else
      var sourceBucket := objects[0].sourceBucket.GetOr("");
      var sourcePrefix := objects[0].sourcePrefix.GetOr("");
      var records := seq(|objects|, i requires 0 <= i < |objects| =>
                           RecordOf(filename, clock, sourceBucket, sourcePrefix, objects[i], targets));
      Some(CatalogFile(catalogBucket.value, CatalogKey(sourceBucket, monitoredPrefix, clock, filename), records))
  }

  /** The catalog path of an entry with a relative key under a source prefix is the object's full key. */
  lemma CatalogPathIsTargetKey(sourcePrefix: string, obj: ObjectRecord, info: ObjectInfo)
    requires obj.relativeKey == Some(info.relativeKey) && info.sourcePrefix == sourcePrefix
    ensures ObjectPath(sourcePrefix, obj) == TargetKey(info)
  {
  }

  /** The backup settings of a region: monitored prefix, catalog bucket, clock and library sizes. */
  datatype BackupEnv = BackupEnv(monitoredPrefix: string, catalogBucket: Option<string>, clock: Clock, codec: Codec)

  /** The uploads of one backup file to a target list: a request per target with a bucket. */
  function BackupRequests(localPath: string, key: string, targets: seq<Destination>): (rs: seq<UploadRequest>)
    ensures |rs| <= |targets|
  {
    if |targets| == 0 then []
    else
      var t := targets[|targets| - 1];
      BackupRequests(localPath, key, targets[..|targets| - 1]) +
      (if Truthy(t.bucket) then [UploadRequest(localPath, t.bucket.value, key, map[], None)] else [])
  }

  /** Whether every target of a backup names a bucket that accepts the file. */
  predicate BackupServed(key: string, targets: seq<Destination>, s3: S3Service) {
    forall i :: 0 <= i < |targets| ==> Truthy(targets[i].bucket) && s3.uploadOk(targets[i].bucket.value, key)
  }

  lemma BackupStep(localPath: string, key: string, targets: seq<Destination>, i: nat, s3: S3Service)
    requires i < |targets|
    ensures BackupServed(key, targets[..i + 1], s3) <==>
            BackupServed(key, targets[..i], s3) && Truthy(targets[i].bucket) && s3.uploadOk(targets[i].bucket.value, key)
    ensures BackupRequests(localPath, key, targets[..i + 1]) ==
            BackupRequests(localPath, key, targets[..i]) +
            (if Truthy(targets[i].bucket) then [UploadRequest(localPath, targets[i].bucket.value, key, map[], None)] else [])
  {
    assert targets[..i + 1][..i] == targets[..i];
    assert targets[..i + 1][i] == targets[i];
  }

  /** Uploads one backup file to each target in turn; True iff every target has a bucket and accepts it. */
  method UploadBackup(localPath: string, key: string, targets: seq<Destination>, s3: S3Service)
    returns (ok: bool, requests: seq<UploadRequest>)
    ensures ok == BackupServed(key, targets, s3)
    ensures requests == BackupRequests(localPath, key, targets)
  {
    ok := true;
    requests := [];
    var i := 0;
    while i < |targets|
      invariant 0 <= i <= |targets|
      invariant ok == BackupServed(key, targets[..i], s3)
      invariant requests == BackupRequests(localPath, key, targets[..i])
    {
      BackupStep(localPath, key, targets, i, s3);
      var t := targets[i];
      if t.bucket.None? || t.bucket.value == "" {
        ok := false;
      } else {
        var uploaded, request := UploadToS3(localPath, t.bucket.value, key, map[], None, None, s3);
        requests := requests + [request];
        if !uploaded {
          ok := false;
        }
      }
      i := i + 1;
    }
    assert targets[..i] == targets;
  }

  /**
   * `upload_compressed_backup_direct`: the staged archive itself goes to every backup
   * target under the backup key, and the manifest's entries are catalogued.
   */
  method UploadCompressedBackupDirect(localPath: string, manifest: Manifest, subfolder: string, backupId: string,
                                      env: BackupEnv, s3: S3Service)
    returns (ok: bool, requests: seq<UploadRequest>, catalog: Option<CatalogFile>)
    ensures var filename := backupId + ".tar.zst";
            var targets := manifest.targets.GetOr([]);
            var key := BackupKey(env.monitoredPrefix, subfolder, filename);
            ok == BackupServed(key, targets, s3) && requests == BackupRequests(localPath, key, targets) &&
            catalog == Catalog(env.catalogBucket, env.monitoredPrefix, filename, env.clock, manifest.objects.GetOr([]), targets)
  {
    var filename := backupId + ".tar.zst";
    var key := BackupKey(env.monitoredPrefix, subfolder, filename);
    var targets := manifest.targets.GetOr([]);
    ok, requests := UploadBackup(localPath, key, targets, s3);
    catalog := Catalog(env.catalogBucket, env.monitoredPrefix, filename, env.clock, manifest.objects.GetOr([]), targets);
  }

  /** The tar members a folder backup copies: for each entry, the member 'objects/<relative_key>' when present. */
  function FolderMembers(members: seq<Member>, folderObjects: seq<ObjectRecord>): (ms: seq<Member>)
    ensures |ms| <= |folderObjects|
    ensures forall i :: 0 <= i < |ms| ==> StartsWith(ms[i].name, "objects/")
  {
    if |folderObjects| == 0 then []
    else
      var name := "objects/" + folderObjects[|folderObjects| - 1].relativeKey.GetOr("");
      var k := LastIndex(members, name);
      FolderMembers(members, folderObjects[..|folderObjects| - 1]) + (if k >= 0 then [members[k]] else [])
  }

  /** The compressed archive of a folder backup: its manifest first, then the copied members, at zstd level 3. */
  function FolderArchive(copied: seq<Member>, folderObjects: seq<ObjectRecord>, backupTargets: seq<Destination>,
                         codec: Codec): (archive: Content)
    ensures archive.Zst? && archive.level == 3 && archive.payload.Tar?
    ensures |archive.payload.members| == |copied| + 1
    ensures archive.payload.members[0].name == "manifest.json" && archive.payload.members[1..] == copied
  {
    var m := Manifest(Some(backupTargets), Some(folderObjects));
    var members := [Member("manifest.json", false, ManifestDoc(m, codec.jsonSize(m)))] + copied;
    var tar := Tar(members, codec.tarSize(members));
    Zst(tar, 3, codec.zstSize(tar, 3))
  }

  /**
   * `create_folder_backup`: copies the folder's members out of the staged tar into a new
   * tar behind a manifest that lists the folder's entries and the backup targets,
   * compresses it at level 3 and uploads it to each backup target. An unreadable tar, or
   * a folder none of whose members is in it, gives False with nothing uploaded.
   */
  method CreateFolderBackup(tar: Content, folderObjects: seq<ObjectRecord>, backupTargets: seq<Destination>,
                            subfolder: string, backupDir: string, backupId: string, env: BackupEnv, s3: S3Service)
    returns (ok: bool, archive: Option<Content>, requests: seq<UploadRequest>, catalog: Option<CatalogFile>)
    ensures !tar.Tar? || |FolderMembers(tar.members, folderObjects)| == 0 ==>
              !ok && archive.None? && requests == [] && catalog.None?
    ensures tar.Tar? && |FolderMembers(tar.members, folderObjects)| > 0 ==>
              var filename := backupId + ".tar.zst";
              var key := BackupKey(env.monitoredPrefix, subfolder, filename);
              var localPath := PathJoin(backupDir, "backup.tar.zst");
              archive == Some(FolderArchive(FolderMembers(tar.members, folderObjects), folderObjects, backupTargets, env.codec)) &&
              ok == BackupServed(key, backupTargets, s3) &&
              requests == BackupRequests(localPath, key, backupTargets) &&
              catalog == Catalog(env.catalogBucket, env.monitoredPrefix, filename, env.clock, folderObjects, backupTargets)
  {
    if !tar.Tar? {
      return false, None, [], None;
    }
    var copied: seq<Member> := [];
    var i := 0;
    while i < |folderObjects|
      invariant 0 <= i <= |folderObjects|
      invariant copied == FolderMembers(tar.members, folderObjects[..i])
    {
      assert folderObjects[..i + 1][..i] == folderObjects[..i];
      var name := "objects/" + folderObjects[i].relativeKey.GetOr("");
      var k := LastIndex(tar.members, name);
      if k >= 0 {
        copied := copied + [tar.members[k]];
      }
      i := i + 1;
    }
    assert folderObjects[..i] == folderObjects;
    if |copied| == 0 {
      return false, None, [], None;
    }
    archive := Some(FolderArchive(copied, folderObjects, backupTargets, env.codec));
    var filename := backupId + ".tar.zst";
    var key := BackupKey(env.monitoredPrefix, subfolder, filename);
    ok, requests := UploadBackup(PathJoin(backupDir, "backup.tar.zst"), key, backupTargets, s3);
    catalog := Catalog(env.catalogBucket, env.monitoredPrefix, filename, env.clock, folderObjects, backupTargets);
  }
}
