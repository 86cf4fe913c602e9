/**
 * The source agent's manifest: the batch's destination list plus one entry per object,
 * each entry keeping nine metadata fields with their defaults.
 */
module SourceManifest {
  import opened Wrappers
  import opened Records
  import opened FileSystem

  /**
   * The entry `add_object_to_manifest` builds from an object's metadata: the nine kept
   * fields, each defaulted; every other key (such as full_key) is dropped.
   */
  function EntryOf(meta: ObjectRecord): (e: ObjectRecord)
    ensures e.fullKey.None?
    ensures e.sourceBucket.Some? && e.sourcePrefix.Some? && e.objectName.Some? && e.relativeKey.Some? &&
            e.creationTime.Some? && e.etag.Some? && e.size.Some? && e.storageClass.Some? && e.tags.Some?
    ensures meta.objectName.Some? ==> e.objectName == meta.objectName
    ensures meta.relativeKey.None? ==> e.relativeKey == e.objectName
    ensures meta.storageClass.None? ==> e.storageClass == Some("STANDARD")
    ensures meta.size.None? ==> e.size == Some(0)
    ensures meta.tags.None? ==> e.tags == Some([])
  {
    ObjectRecord(
      sourceBucket := Some(meta.sourceBucket.GetOr("")),
      sourcePrefix := Some(meta.sourcePrefix.GetOr("")),
      objectName := Some(meta.objectName.GetOr("")),
      relativeKey := Some(meta.relativeKey.GetOr(meta.objectName.GetOr(""))),
      fullKey := None,
      creationTime := Some(meta.creationTime.GetOr("")),
      etag := Some(meta.etag.GetOr("")),
      size := Some(meta.size.GetOr(0)),
      storageClass := Some(meta.storageClass.GetOr("STANDARD")),
      tags := Some(meta.tags.GetOr([])))
  }

  /** Entries for a metadata list, in order. */
  function Entries(metas: seq<ObjectRecord>): (es: seq<ObjectRecord>)
    ensures |es| == |metas| && forall i :: 0 <= i < |metas| ==> es[i] == EntryOf(metas[i])
  {
    seq(|metas|, i requires 0 <= i < |metas| => EntryOf(metas[i]))
  }

  /** A manifest under construction: the dictionary the source functions mutate in place. */
  class ManifestBuilder {
    var targets: seq<Destination>
    var objects: seq<ObjectRecord>

    /** `create_manifest_structure`: empty targets and objects. */
    constructor ()
      ensures targets == [] && objects == []
    {
      targets := [];
      objects := [];
    }

    /** The manifest document this builder holds. */
    function Value(): (m: Manifest)
      reads this
      ensures m.targets == Some(targets) && m.objects == Some(objects)
    {
      Manifest(Some(targets), Some(objects))
    }

    method SetTargets(ts: seq<Destination>)
      modifies this
      ensures targets == ts && objects == old(objects)
    {
      targets := ts;
    }

    /**
     * `add_object_to_manifest`: appends exactly one entry at the end; the earlier entries
     * and the targets stay as they were, and the targets argument is not used.
     */
    method AddObject(meta: ObjectRecord, unusedTargets: seq<Destination>)
      modifies this
      ensures objects == old(objects) + [EntryOf(meta)]
      ensures targets == old(targets)
    {
      objects := objects + [EntryOf(meta)];
    }
  }

  /**
   * `create_object_manifest`: targets stored verbatim and one entry per input, in order,
   * written to `outputPath`. An input that is not a list (None) or a failing write gives
   * False and writes nothing.
   */
  method CreateObjectManifest(disk: Disk, metas: Option<seq<ObjectRecord>>, targets: seq<Destination>,
                              outputPath: string, writeFault: bool, encodedSize: nat)
    returns (ok: bool)
    modifies disk
    ensures ok <==> metas.Some? && !writeFault
    ensures ok ==> disk.files == old(disk.files)[outputPath := ManifestDoc(Manifest(Some(targets), Some(Entries(metas.value))), encodedSize)]
    ensures !ok ==> disk.files == old(disk.files)
  {
    var builder := new ManifestBuilder();
    builder.SetTargets(targets);
    if metas.None? {
      return false;
    }
    var ms := metas.value;
    var i := 0;
    while i < |ms|
      invariant 0 <= i <= |ms|
      invariant builder.objects == Entries(ms[..i]) && builder.targets == targets
      invariant disk.files == old(disk.files)
    {
      builder.AddObject(ms[i], []);
      i := i + 1;
    }
    assert ms[..i] == ms;
    if writeFault {
      return false;
    }
    disk.Write(outputPath, ManifestDoc(builder.Value(), encodedSize));
    ok := true;
  }
}
