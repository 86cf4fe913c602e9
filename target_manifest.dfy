/**
 * The target agent's reading of a manifest: one upload record per named object, each
 * carrying the manifest's whole destination list, and the tag map applied on upload.
 */
module TargetManifest {
  import opened Wrappers
  import opened Strings
  import opened Records
  import SourceManifest
  import SourceAwsUtils

  /** The per-object record the target works from. */
  datatype ObjectInfo = ObjectInfo(
    localPath: string,
    objectName: string,
    relativeKey: string,
    sourceBucket: string,
    sourcePrefix: string,
    tags: seq<map<string, string>>,
    creationTime: string,
    etag: string,
    size: int,
    storageClass: string,
    targets: seq<Destination>)

  /** The record for one manifest entry with a non-empty name; relative_key falls back to the name. */
  function InfoOf(obj: ObjectRecord, targets: seq<Destination>, extractDir: string): (info: ObjectInfo)
    requires Truthy(obj.objectName)
    ensures info.objectName == obj.objectName.value && info.targets == targets
    ensures info.relativeKey == obj.relativeKey.GetOr(obj.objectName.value)
    ensures info.localPath == PathJoin(PathJoin(extractDir, "objects"), info.relativeKey)
    ensures info.storageClass == obj.storageClass.GetOr("STANDARD") && info.size == obj.size.GetOr(0)
  {
    var relativeKey := obj.relativeKey.GetOr(obj.objectName.value);
    ObjectInfo(
      localPath := PathJoin(PathJoin(extractDir, "objects"), relativeKey),
      objectName := obj.objectName.value,
      relativeKey := relativeKey,
      sourceBucket := obj.sourceBucket.GetOr(""),
      sourcePrefix := obj.sourcePrefix.GetOr(""),
      tags := obj.tags.GetOr([]),
      creationTime := obj.creationTime.GetOr(""),
      etag := obj.etag.GetOr(""),
      size := obj.size.GetOr(0),
      storageClass := obj.storageClass.GetOr("STANDARD"),
      targets := targets)
  }

  /** The records for an entry list: named entries only, in order; none without a 'targets' key. */
  function Projected(objs: seq<ObjectRecord>, targets: Option<seq<Destination>>, extractDir: string): (infos: seq<ObjectInfo>)
    ensures |infos| <= |objs|
    ensures targets.None? ==> infos == []
  {
    if |objs| == 0 then []
    else
      var obj := objs[|objs| - 1];
      Projected(objs[..|objs| - 1], targets, extractDir) +
      (if Truthy(obj.objectName) && targets.Some? then [InfoOf(obj, targets.value, extractDir)] else [])
  }

  lemma ProjectedSnoc(objs: seq<ObjectRecord>, i: nat, targets: Option<seq<Destination>>, extractDir: string)
    requires i < |objs|
    ensures Projected(objs[..i + 1], targets, extractDir) ==
            Projected(objs[..i], targets, extractDir) +
            (if Truthy(objs[i].objectName) && targets.Some? then [InfoOf(objs[i], targets.value, extractDir)] else [])
  {
    assert objs[..i + 1][..i] == objs[..i];
    assert objs[..i + 1][i] == objs[i];
  }

  /** `get_object_paths_from_manifest` */
  method GetObjectPathsFromManifest(m: Manifest, extractDir: string) returns (infos: seq<ObjectInfo>)
    ensures infos == Projected(m.objects.GetOr([]), m.targets, extractDir)
  {
    var objects := m.objects.GetOr([]);
    if |objects| == 0 {
      return [];
    }
    infos := [];
    var i := 0;
    while i < |objects|
      invariant 0 <= i <= |objects|
      invariant infos == Projected(objects[..i], m.targets, extractDir)
    {
      ProjectedSnoc(objects, i, m.targets, extractDir);
      var obj := objects[i];
      if Truthy(obj.objectName) && m.targets.Some? {
        infos := infos + [InfoOf(obj, m.targets.value, extractDir)];
      }
      i := i + 1;
    }
    assert objects[..i] == objects;
  }

  /** A record is produced exactly for each named entry, when the manifest has targets. */
  lemma {:induction false} ProjectedMembership(objs: seq<ObjectRecord>, targets: Option<seq<Destination>>,
                                               extractDir: string, info: ObjectInfo)
    ensures info in Projected(objs, targets, extractDir) <==>
            targets.Some? && exists i :: 0 <= i < |objs| && Truthy(objs[i].objectName) &&
                                         info == InfoOf(objs[i], targets.value, extractDir)
  {
    if |objs| > 0 && targets.Some? {
      var init := objs[..|objs| - 1];
      var last := objs[|objs| - 1];
      var here := Truthy(last.objectName) && info == InfoOf(last, targets.value, extractDir);
      ProjectedMembership(init, targets, extractDir, info);
      assert info in Projected(objs, targets, extractDir) <==> info in Projected(init, targets, extractDir) || here by {
        var tail := if Truthy(last.objectName) then [InfoOf(last, targets.value, extractDir)] else [];
        assert Projected(objs, targets, extractDir) == Projected(init, targets, extractDir) + tail;
      }
      assert (exists i :: 0 <= i < |objs| && Truthy(objs[i].objectName) && info == InfoOf(objs[i], targets.value, extractDir)) <==>
             (exists i :: 0 <= i < |init| && Truthy(init[i].objectName) && info == InfoOf(init[i], targets.value, extractDir)) ||
             here by {
        assert objs == init + [last];
        NamedEntrySnoc(objs, init, last, targets.value, extractDir, info);
      }
    }
  }

  lemma NamedEntrySnoc(objs: seq<ObjectRecord>, init: seq<ObjectRecord>, last: ObjectRecord, targets: seq<Destination>,
                       extractDir: string, info: ObjectInfo)
    requires objs == init + [last]
    ensures (exists i :: 0 <= i < |objs| && Truthy(objs[i].objectName) && info == InfoOf(objs[i], targets, extractDir)) <==>
            (exists i :: 0 <= i < |init| && Truthy(init[i].objectName) && info == InfoOf(init[i], targets, extractDir)) ||
            (Truthy(last.objectName) && info == InfoOf(last, targets, extractDir))
  {
    if exists i :: 0 <= i < |objs| && Truthy(objs[i].objectName) && info == InfoOf(objs[i], targets, extractDir) {
      var i :| 0 <= i < |objs| && Truthy(objs[i].objectName) && info == InfoOf(objs[i], targets, extractDir);
      if i < |init| {
        assert init[i] == objs[i];
      }
    }
    if exists i :: 0 <= i < |init| && Truthy(init[i].objectName) && info == InfoOf(init[i], targets, extractDir) {
      var i :| 0 <= i < |init| && Truthy(init[i].objectName) && info == InfoOf(init[i], targets, extractDir);
      assert objs[i] == init[i];
    }
    assert objs[|init|] == last;
  }

  /** When every entry is named, the projection keeps one record per entry, in entry order. */
  lemma {:induction false} ProjectedAllNamed(objs: seq<ObjectRecord>, targets: seq<Destination>, extractDir: string)
    requires forall i :: 0 <= i < |objs| ==> Truthy(objs[i].objectName)
    ensures |Projected(objs, Some(targets), extractDir)| == |objs|
    ensures forall i :: 0 <= i < |objs| ==> Projected(objs, Some(targets), extractDir)[i] == InfoOf(objs[i], targets, extractDir)
  {
    if |objs| > 0 {
      ProjectedAllNamed(objs[..|objs| - 1], targets, extractDir);
    }
  }

  /**
   * What the target reads back from a manifest the source wrote: for objects with
   * non-empty names, one record per object, in order, carrying the object's name,
   * relative key, storage class, size and tags, and every destination.
   */
  lemma ManifestRoundTrip(metas: seq<ObjectRecord>, targets: seq<Destination>, extractDir: string)
    requires forall i :: 0 <= i < |metas| ==> Truthy(metas[i].objectName)
    ensures var infos := Projected(SourceManifest.Entries(metas), Some(targets), extractDir);
            |infos| == |metas| &&
            forall i :: 0 <= i < |metas| ==>
              metas[i].objectName == Some(infos[i].objectName) &&
              infos[i].relativeKey == metas[i].relativeKey.GetOr(infos[i].objectName) &&
              infos[i].storageClass == metas[i].storageClass.GetOr("STANDARD") &&
              infos[i].size == metas[i].size.GetOr(0) &&
              infos[i].tags == metas[i].tags.GetOr([]) &&
              infos[i].targets == targets
  {
    ProjectedAllNamed(SourceManifest.Entries(metas), targets, extractDir);
  }

  /** The tag map of a list of single-entry tag dictionaries: later keys overwrite earlier ones. */
  function Flatten(tagList: seq<map<string, string>>): (tags: map<string, string>)
    ensures forall k :: k in tags <==> exists i :: 0 <= i < |tagList| && k in tagList[i]
  {
    if |tagList| == 0 then map[]
    else Flatten(tagList[..|tagList| - 1]) + tagList[|tagList| - 1]
  }

  /** The tag map with the original creation time and etag added when non-empty. */
  function TagsFor(info: ObjectInfo): (tags: map<string, string>)
    ensures info.creationTime != "" ==> "OriginalCreationTime" in tags && tags["OriginalCreationTime"] == info.creationTime
    ensures info.etag != "" ==> "OriginalETag" in tags && tags["OriginalETag"] == info.etag
    ensures forall k :: k in tags <==>
              k in Flatten(info.tags) || (k == "OriginalCreationTime" && info.creationTime != "") ||
              (k == "OriginalETag" && info.etag != "")
    ensures forall k :: k in Flatten(info.tags) && k != "OriginalCreationTime" && k != "OriginalETag" ==>
              tags[k] == Flatten(info.tags)[k]
  {
    var t1 := Flatten(info.tags);
    var t2 := if info.creationTime != "" then t1["OriginalCreationTime" := info.creationTime] else t1;
    if info.etag != "" then t2["OriginalETag" := info.etag] else t2
  }

  /** `prepare_object_tags`: merge the tag dictionaries in order, then add the two provenance tags. */
  method PrepareObjectTags(info: ObjectInfo) returns (tags: map<string, string>)
    ensures tags == TagsFor(info)
  {
    tags := map[];
    var i := 0;
    while i < |info.tags|
      invariant 0 <= i <= |info.tags|
      invariant tags == Flatten(info.tags[..i])
    {
      assert info.tags[..i + 1][..i] == info.tags[..i];
      tags := tags + info.tags[i];
      i := i + 1;
    }
    assert info.tags[..i] == info.tags;
    if info.creationTime != "" {
      tags := tags["OriginalCreationTime" := info.creationTime];
    }
    if info.etag != "" {
      tags := tags["OriginalETag" := info.etag];
    }
  }

  /** Tags captured as single-entry dictionaries flatten back to the tag set when its keys are unique. */
  lemma FlattenTagList(tagSet: seq<(string, string)>)
    requires forall i, j :: 0 <= i < j < |tagSet| ==> tagSet[i].0 != tagSet[j].0
    ensures forall i :: 0 <= i < |tagSet| ==> Flatten(SourceAwsUtils.TagList(tagSet))[tagSet[i].0] == tagSet[i].1
    ensures forall k :: k in Flatten(SourceAwsUtils.TagList(tagSet)) ==> exists i :: 0 <= i < |tagSet| && tagSet[i].0 == k
  {
    FlattenTagValues(tagSet);
    FlattenTagKeys(tagSet);
  }

  /** Flattening the captured list of a non-empty tag set: the earlier tags, then the last one. */
  lemma FlattenTagSnoc(tagSet: seq<(string, string)>)
    requires |tagSet| > 0
    ensures Flatten(SourceAwsUtils.TagList(tagSet)) ==
            Flatten(SourceAwsUtils.TagList(tagSet[..|tagSet| - 1]))[tagSet[|tagSet| - 1].0 := tagSet[|tagSet| - 1].1]
  {
    var init := tagSet[..|tagSet| - 1];
    var last := tagSet[|tagSet| - 1];
    assert SourceAwsUtils.TagList(tagSet)[..|tagSet| - 1] == SourceAwsUtils.TagList(init);
    assert SourceAwsUtils.TagList(tagSet)[|tagSet| - 1] == map[last.0 := last.1];
  }

  lemma FlattenTagValues(tagSet: seq<(string, string)>)
    requires forall i, j :: 0 <= i < j < |tagSet| ==> tagSet[i].0 != tagSet[j].0
    ensures forall i :: 0 <= i < |tagSet| ==> Flatten(SourceAwsUtils.TagList(tagSet))[tagSet[i].0] == tagSet[i].1
  {
    forall i | 0 <= i < |tagSet|
      ensures Flatten(SourceAwsUtils.TagList(tagSet))[tagSet[i].0] == tagSet[i].1
    {
      FlattenTagValue(tagSet, i);
    }
  }

  /** The value of one captured tag survives the later, differently keyed tags. */
  lemma {:induction false} FlattenTagValue(tagSet: seq<(string, string)>, i: nat)
    requires i < |tagSet|
    requires forall a, b :: 0 <= a < b < |tagSet| ==> tagSet[a].0 != tagSet[b].0
    ensures tagSet[i].0 in Flatten(SourceAwsUtils.TagList(tagSet))
    ensures Flatten(SourceAwsUtils.TagList(tagSet))[tagSet[i].0] == tagSet[i].1
    decreases |tagSet|
  {
    var init := tagSet[..|tagSet| - 1];
    FlattenTagSnoc(tagSet);
    if i < |init| {
      assert init[i] == tagSet[i];
      assert forall a, b :: 0 <= a < b < |init| ==> init[a].0 != init[b].0 by {
        forall a, b | 0 <= a < b < |init| ensures init[a].0 != init[b].0 {
          assert init[a] == tagSet[a] && init[b] == tagSet[b];
        }
      }
      FlattenTagValue(init, i);
      assert tagSet[i].0 != tagSet[|tagSet| - 1].0;
    }
  }

  lemma FlattenTagKeys(tagSet: seq<(string, string)>)
    ensures forall k :: k in Flatten(SourceAwsUtils.TagList(tagSet)) ==> exists i :: 0 <= i < |tagSet| && tagSet[i].0 == k
  {
    forall k | k in Flatten(SourceAwsUtils.TagList(tagSet))
      ensures exists i :: 0 <= i < |tagSet| && tagSet[i].0 == k
    {
      var i := FlattenTagKey(tagSet, k);
    }
  }

  /** Every flattened key comes from some captured tag. */
  lemma {:induction false} FlattenTagKey(tagSet: seq<(string, string)>, k: string) returns (i: nat)
    requires k in Flatten(SourceAwsUtils.TagList(tagSet))
    ensures i < |tagSet| && tagSet[i].0 == k
    decreases |tagSet|
  {
    assert |tagSet| > 0;
    var init := tagSet[..|tagSet| - 1];
    FlattenTagSnoc(tagSet);
    if k == tagSet[|tagSet| - 1].0 {
      i := |tagSet| - 1;
    } else {
      i := FlattenTagKey(init, k);
      assert init[i] == tagSet[i];
    }
  }
}
