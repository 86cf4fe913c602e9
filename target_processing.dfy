/**
 * The target agent's processing of one staged archive and of one batch of queue
 * messages. The downloaded archive is a value (`Option<Content>`, None when the
 * download fails); the target pipeline is followed on values rather than on the disk.
 */
module TargetProcessing {
  import opened Wrappers
  import opened Strings
  import opened Records
  import opened FileSystem
  import opened S3Events
  import opened TargetManifest
  import opened TargetAwsUtils
  import opened Decompression
  import opened TargetServer
  import opened MessageBatches

  /** The agent's surroundings: its region, its temporary directories, backup settings and S3. */
  datatype TargetEnv = TargetEnv(region: string, tempDir: string, backupDir: string, backup: BackupEnv, s3: S3Service)

  /**
   * What processing one archive sends out: backup uploads, catalog files, object
   * uploads with their per-object results, and whether the staging object is deleted.
   */
  datatype ArchiveOutcome = ArchiveOutcome(
    backupRequests: seq<UploadRequest>,
    catalogs: seq<CatalogFile>,
    uploads: seq<UploadRequest>,
    results: seq<bool>,
    stagingDeleted: bool)

  /** An archive that is skipped: nothing is sent and the staging object stays. */
  const Skipped := ArchiveOutcome([], [], [], [], false)

  /** The list form of an optional catalog file. */
  function CatalogList(c: Option<CatalogFile>): (cs: seq<CatalogFile>)
    ensures c.Some? ==> cs == [c.value]
    ensures c.None? ==> cs == []
  {
    if c.Some? then [c.value] else []
  }

  /* ---------------------------------------------------------------------------------- */
  /* Reading the manifest                                                               */
  /* ---------------------------------------------------------------------------------- */

  /**
   * The manifest read back from temp_dir/extracted/manifest.json: the archive's first
   * 'manifest.json' member, when it is a file holding a non-empty JSON document.
   */
  function ReadManifest(c: Content): (m: Option<Manifest>)
    requires Unpackable(c)
    ensures m.Some? ==> m.value != Manifest(None, None)
    ensures m.Some? <==>
              var first := c.payload.members[FirstIndex(c.payload.members, "manifest.json")];
              !first.isDir && first.body.ManifestDoc? && first.body.manifest != Manifest(None, None)
  {
    var first := c.payload.members[FirstIndex(c.payload.members, "manifest.json")];
    if !first.isDir && first.body.ManifestDoc? && first.body.manifest != Manifest(None, None) then Some(first.body.manifest)
    else None
  }

  /* ---------------------------------------------------------------------------------- */
  /* The backup phase                                                                   */
  /* ---------------------------------------------------------------------------------- */

  /** What one `create_folder_backup` sends: uploads and, when a backup was built, its catalog. */
  function FolderBackupOutcome(tar: Content, folderObjects: seq<ObjectRecord>, backupTargets: seq<Destination>,
                               subfolder: string, backupId: string, env: TargetEnv): (r: (seq<UploadRequest>, seq<CatalogFile>))
    ensures !tar.Tar? || |FolderMembers(tar.members, folderObjects)| == 0 ==> r == ([], [])
    ensures |r.0| <= |backupTargets| && |r.1| <= 1
  {
    if !tar.Tar? || |FolderMembers(tar.members, folderObjects)| == 0 then ([], [])
    else
      var filename := backupId + ".tar.zst";
      var key := BackupKey(env.backup.monitoredPrefix, subfolder, filename);
      (BackupRequests(PathJoin(env.backupDir, "backup.tar.zst"), key, backupTargets),
       CatalogList(Catalog(env.backup.catalogBucket, env.backup.monitoredPrefix, filename, env.backup.clock,
                           folderObjects, backupTargets)))
  }

  /** The folder backups of a grouping, in group order; group k takes backup id `ids(1 + k)`. */
  function FolderBackups(groups: seq<(string, seq<ObjectRecord>)>, tar: Content, backupTargets: seq<Destination>,
                         ids: nat -> string, env: TargetEnv): (r: (seq<UploadRequest>, seq<CatalogFile>))
    ensures |r.1| <= |groups|
  {
    if |groups| == 0 then ([], [])
    else
      var k := |groups| - 1;
      var before := FolderBackups(groups[..k], tar, backupTargets, ids, env);
      var one := FolderBackupOutcome(tar, groups[k].1, backupTargets, groups[k].0, ids(1 + k), env);
      (before.0 + one.0, before.1 + one.1)
  }

  /**
   * The backup phase as the code runs it: one folder sends the staged archive as it
   * is (backup id `ids(1)`); several folders (or none) rebuild one archive per folder.
   */
  function BackupOutcome(c: Content, localPath: string, manifest: Manifest, backupTargets: seq<Destination>,
                         ids: nat -> string, env: TargetEnv): (r: (seq<UploadRequest>, seq<CatalogFile>))
    requires Unpackable(c)
  {
    var objects := manifest.objects.GetOr([]);
    if |Folders(objects)| == 1 then
      var filename := ids(1) + ".tar.zst";
      var key := BackupKey(env.backup.monitoredPrefix, Folder(objects[0]), filename);
      (BackupRequests(localPath, key, backupTargets),
       CatalogList(Catalog(env.backup.catalogBucket, env.backup.monitoredPrefix, filename, env.backup.clock,
                           objects, backupTargets)))
    else FolderBackups(Groups(objects), c.payload, backupTargets, ids, env)
  }

  /** The backup phase as evidently intended: only an archive with backup targets is backed up. */
  function IntendedBackupOutcome(c: Content, localPath: string, manifest: Manifest, backupTargets: seq<Destination>,
                                 ids: nat -> string, env: TargetEnv): (r: (seq<UploadRequest>, seq<CatalogFile>))
    requires Unpackable(c)
    ensures backupTargets == [] ==> r == ([], [])
    ensures backupTargets != [] ==> r == BackupOutcome(c, localPath, manifest, backupTargets, ids, env)
  {
    if backupTargets == [] then ([], []) else BackupOutcome(c, localPath, manifest, backupTargets, ids, env)
  }

  /** With no backup target nothing is uploaded by either form of the backup phase. */
  lemma {:induction false} NoBackupTargetsNoUploads(groups: seq<(string, seq<ObjectRecord>)>, tar: Content,
                                                     ids: nat -> string, env: TargetEnv)
    ensures FolderBackups(groups, tar, [], ids, env).0 == []
  {
    if |groups| > 0 {
      NoBackupTargetsNoUploads(groups[..|groups| - 1], tar, ids, env);
    }
  }

  /**
   * The code as written catalogs an archive that has no backup target: an archive
   * whose entries share one folder, processed with a catalog bucket set, gets a
   * catalog file listing its entries with no target bucket although no backup was
   * uploaded; the intended form sends nothing.
   */
  lemma UnguardedBackupCatalogs(c: Content, localPath: string, manifest: Manifest, ids: nat -> string, env: TargetEnv)
    requires Unpackable(c)
    requires manifest.objects.Some? && |manifest.objects.value| == 1
    requires Truthy(env.backup.catalogBucket)
    ensures BackupOutcome(c, localPath, manifest, [], ids, env).0 == []
    ensures var catalogs := BackupOutcome(c, localPath, manifest, [], ids, env).1;
            |catalogs| == 1 && |catalogs[0].records| == 1 && catalogs[0].records[0].targetBuckets == []
    ensures IntendedBackupOutcome(c, localPath, manifest, [], ids, env) == ([], [])
  {
    var objects := manifest.objects.value;
    assert Folders(objects) == {Folder(objects[0])};
  }

  /** The backup phase's loop over folder groups. */
  method BackupFolders(groups: seq<(string, seq<ObjectRecord>)>, tar: Content, backupTargets: seq<Destination>,
                       ids: nat -> string, env: TargetEnv)
    returns (requests: seq<UploadRequest>, catalogs: seq<CatalogFile>)
    ensures (requests, catalogs) == FolderBackups(groups, tar, backupTargets, ids, env)
  {
    requests, catalogs := [], [];
    var k := 0;
    while k < |groups|
      invariant 0 <= k <= |groups|
      invariant (requests, catalogs) == FolderBackups(groups[..k], tar, backupTargets, ids, env)
    {
      assert groups[..k + 1][..k] == groups[..k];
      var subfolder := groups[k].0;
      var ok, archive, sent, catalog := CreateFolderBackup(tar, groups[k].1, backupTargets, subfolder, env.backupDir,
                                                           ids(1 + k), env.backup, env.s3);
      requests := requests + sent;
      catalogs := catalogs + CatalogList(catalog);
      k := k + 1;
    }
    assert groups[..k] == groups;
  }

  /** The subfolder loop: the set of folders of the manifest's entries. */
  method CollectFolders(objects: seq<ObjectRecord>) returns (subfolders: set<string>)
    ensures subfolders == Folders(objects)
  {
    subfolders := {};
    var i := 0;
    while i < |objects|
      invariant 0 <= i <= |objects|
      invariant subfolders == Folders(objects[..i])
    {
      FoldersSnoc(objects[..i], objects[i]);
      assert objects[..i + 1] == objects[..i] + [objects[i]];
      subfolders := subfolders + {Folder(objects[i])};
      i := i + 1;
    }
    assert objects[..i] == objects;
  }

  /** The `defaultdict(list)` loop that groups the entries by folder. */
  method GroupByFolder(objects: seq<ObjectRecord>) returns (groups: seq<(string, seq<ObjectRecord>)>)
    ensures groups == Groups(objects)
  {
    groups := [];
    var i := 0;
    while i < |objects|
      invariant 0 <= i <= |objects|
      invariant groups == Groups(objects[..i])
    {
      assert objects[..i + 1][..i] == objects[..i];
      groups := AddToGroup(groups, Folder(objects[i]), objects[i]);
      i := i + 1;
    }
    assert objects[..i] == objects;
  }

  /** The only element of a one-element set of folders is the first entry's folder. */
  lemma SingleFolder(objects: seq<ObjectRecord>, f: string)
    requires Folders(objects) == {f}
    ensures |objects| > 0 && Folder(objects[0]) == f
  {
    var i :| 0 <= i < |objects| && Folder(objects[i]) == f;
    assert Folder(objects[0]) in Folders(objects);
  }

  /**
   * The backup phase as the code runs it, for every archive: one folder sends the staged
   * archive as it is, several folders (or none) rebuild one archive per folder.
   */
  method BackupPhase(c: Content, localPath: string, manifest: Manifest, backupTargets: seq<Destination>,
                     ids: nat -> string, env: TargetEnv)
    returns (requests: seq<UploadRequest>, catalogs: seq<CatalogFile>)
    requires Unpackable(c)
    ensures (requests, catalogs) == BackupOutcome(c, localPath, manifest, backupTargets, ids, env)
  {
    var objects := manifest.objects.GetOr([]);
    var subfolders := CollectFolders(objects);
    if |subfolders| == 1 {
      var subfolder :| subfolder in subfolders;
      OnlyElement(subfolders, subfolder);
      SingleFolder(objects, subfolder);
      var ok, sent, catalog := UploadCompressedBackupDirect(localPath, manifest.(targets := Some(backupTargets)),
                                                            subfolder, ids(1), env.backup, env.s3);
      requests, catalogs := sent, CatalogList(catalog);
    } else {
      var groups := GroupByFolder(objects);
      requests, catalogs := BackupFolders(groups, c.payload, backupTargets, ids, env);
    }
  }

  /** The corrected backup phase: skipped for an archive without backup targets. */
  method IntendedBackupPhase(c: Content, localPath: string, manifest: Manifest, backupTargets: seq<Destination>,
                             ids: nat -> string, env: TargetEnv)
    returns (requests: seq<UploadRequest>, catalogs: seq<CatalogFile>)
    requires Unpackable(c)
    ensures (requests, catalogs) == IntendedBackupOutcome(c, localPath, manifest, backupTargets, ids, env)
  {
    if backupTargets == [] {
      return [], [];
    }
    requests, catalogs := BackupPhase(c, localPath, manifest, backupTargets, ids, env);
  }

  /** Without backup targets the backup phase as written uploads nothing, whatever it catalogs. */
  lemma NoBackupTargetsNoBackupUploads(c: Content, localPath: string, manifest: Manifest, ids: nat -> string,
                                       env: TargetEnv)
    requires Unpackable(c)
    ensures BackupOutcome(c, localPath, manifest, [], ids, env).0 == []
  {
    var objects := manifest.objects.GetOr([]);
    if |Folders(objects)| != 1 {
      NoBackupTargetsNoUploads(Groups(objects), c.payload, ids, env);
    }
  }

  /** A set of one element that holds `x` is `{x}`. */
  lemma OnlyElement<T>(s: set<T>, x: T)
    requires |s| == 1 && x in s
    ensures s == {x}
  {
    assert s == (s - {x}) + {x};
    assert |s - {x}| == 0;
  }

  /** When the entries share one folder, the grouping is that one group holding every entry. */
  lemma SingleFolderOneGroup(objects: seq<ObjectRecord>)
    requires |Folders(objects)| == 1
    ensures Groups(objects) == [(Folder(objects[0]), objects)]
  {
    var f := Folder(objects[0]);
    assert f in Folders(objects);
    OnlyElement(Folders(objects), f);
    GroupsPartition(objects);
    var groups := Groups(objects);
    assert exists i :: 0 <= i < |groups| && groups[i].0 == f;
    var i :| 0 <= i < |groups| && groups[i].0 == f;
    forall j | 0 <= j < |groups| ensures groups[j].0 == f {
      assert groups[j].0 in Folders(objects);
    }
    GroupsCount(objects);
    assert forall k :: 0 <= k < |objects| ==> Folder(objects[k]) == f by {
      forall k | 0 <= k < |objects| ensures Folder(objects[k]) == f {
        assert Folder(objects[k]) in Folders(objects);
      }
    }
    InFolderAll(objects, f);
  }

  /** Entries all in one folder are exactly that folder's entries. */
  lemma {:induction false} InFolderAll(objects: seq<ObjectRecord>, f: string)
    requires forall k :: 0 <= k < |objects| ==> Folder(objects[k]) == f
    ensures InFolder(objects, f) == objects
  {
    if |objects| > 0 {
      var init := objects[..|objects| - 1];
      InFolderAll(init, f);
      assert init + [objects[|objects| - 1]] == objects;
    }
  }

  /* ---------------------------------------------------------------------------------- */
  /* The upload phase                                                                   */
  /* ---------------------------------------------------------------------------------- */

  /** The tar's file members other than 'manifest.json', in tar order. */
  function ObjectMembers(names: seq<string>): (ms: seq<string>)
    ensures forall n :: n in ms <==> n in names && n != "manifest.json"
  {
    if |names| == 0 then []
    else
      var n := names[|names| - 1];
      ObjectMembers(names[..|names| - 1]) + (if n != "manifest.json" then [n] else [])
  }

  /** A member's relative key: its name without a leading 'objects/'. */
  function MemberKey(name: string): (rk: string)
    ensures StartsWith(name, "objects/") ==> "objects/" + rk == name
    ensures !StartsWith(name, "objects/") ==> rk == name
  {
    if StartsWith(name, "objects/") then name[|"objects/"|..] else name
  }

  /** The lookup from relative key to object info; an empty key is left out, and a later entry wins. */
  function ObjectMap(infos: seq<ObjectInfo>): (m: map<string, ObjectInfo>)
    ensures forall k :: k in m <==> k != "" && exists i :: 0 <= i < |infos| && infos[i].relativeKey == k
    ensures forall k :: k in m ==> m[k].relativeKey == k && m[k] in infos
  {
    if |infos| == 0 then map[]
    else
      var last := infos[|infos| - 1];
      var m := ObjectMap(infos[..|infos| - 1]);
      if last.relativeKey != "" then m[last.relativeKey := last] else m
  }

  /** Of entries sharing a relative key, the last one is kept. */
  lemma {:induction false} ObjectMapLaterWins(infos: seq<ObjectInfo>, i: int)
    requires 0 <= i < |infos| && infos[i].relativeKey != ""
    requires forall j :: i < j < |infos| ==> infos[j].relativeKey != infos[i].relativeKey
    ensures ObjectMap(infos)[infos[i].relativeKey] == infos[i]
  {
    var init, last := infos[..|infos| - 1], infos[|infos| - 1];
    var m := ObjectMap(init);
    assert ObjectMap(infos) == if last.relativeKey != "" then m[last.relativeKey := last] else m;
    if i < |init| {
      assert init[i] == infos[i] && last.relativeKey != infos[i].relativeKey;
      ObjectMapLaterWins(init, i);
    }
  }

  /** The loop filling the lookup. */
  method BuildObjectMap(infos: seq<ObjectInfo>) returns (m: map<string, ObjectInfo>)
    ensures m == ObjectMap(infos)
  {
    m := map[];
    var i := 0;
    while i < |infos|
      invariant 0 <= i <= |infos|
      invariant m == ObjectMap(infos[..i])
    {
      assert infos[..i + 1][..i] == infos[..i];
      var relativeKey := infos[i].relativeKey;
      if relativeKey != "" {
        m := m[relativeKey := infos[i]];
      }
      i := i + 1;
    }
    assert infos[..i] == infos;
  }

  /** The object info uploaded for a member: its manifest info with the extracted file as local path. */
  function InfoFor(objectMap: map<string, ObjectInfo>, extractDir: string, name: string): ObjectInfo
    requires MemberKey(name) in objectMap
  {
    objectMap[MemberKey(name)].(localPath := PathJoin(extractDir, name))
  }

  /** A member's upload, when the manifest knows it: its result and the requests it sends. */
  function MemberOutcome(objectMap: map<string, ObjectInfo>, extractDir: string, env: TargetEnv, name: string)
    : (r: Option<(bool, seq<UploadRequest>)>)
    ensures r.Some? <==> MemberKey(name) in objectMap
  {
    if MemberKey(name) in objectMap then Some(UploadOutcome(InfoFor(objectMap, extractDir, name), true, env.region, env.s3))
    else None
  }

  /**
   * The streaming loop as a function of each member's upload: a member with an upload
   * adds its requests and its result; a member without one is skipped.
   */
  function MemberUploads(members: seq<string>, step: string -> Option<(bool, seq<UploadRequest>)>)
    : (r: (seq<UploadRequest>, seq<bool>))
    ensures |r.1| <= |members|
  {
    if |members| == 0 then ([], [])
    else
      var before := MemberUploads(members[..|members| - 1], step);
      var one := step(members[|members| - 1]);
      if one.None? then before else (before.0 + one.value.1, before.1 + [one.value.0])
  }

  /** Every result is True exactly when every member with an upload succeeds. */
  lemma {:induction false} MemberResultsAllTrue(members: seq<string>, step: string -> Option<(bool, seq<UploadRequest>)>)
    ensures false !in MemberUploads(members, step).1 <==>
            forall i :: 0 <= i < |members| && step(members[i]).Some? ==> step(members[i]).value.0
  {
    if |members| > 0 {
      var init := members[..|members| - 1];
      MemberResultsAllTrue(init, step);
      assert forall i :: 0 <= i < |init| ==> init[i] == members[i];
    }
  }

  /** There is a result exactly when some member has an upload. */
  lemma {:induction false} MemberResultsPresent(members: seq<string>, step: string -> Option<(bool, seq<UploadRequest>)>)
    ensures |MemberUploads(members, step).1| > 0 <==> exists i :: 0 <= i < |members| && step(members[i]).Some?
  {
    if |members| > 0 {
      var init := members[..|members| - 1];
      MemberResultsPresent(init, step);
      assert forall i :: 0 <= i < |init| ==> init[i] == members[i];
      if step(members[|members| - 1]).Some? {
        assert |MemberUploads(members, step).1| > 0;
      }
    }
  }

  /** Each member's upload in the streaming loop. */
  function StepOf(objectMap: map<string, ObjectInfo>, extractDir: string, env: TargetEnv)
    : (step: string -> Option<(bool, seq<UploadRequest>)>)
    ensures forall name :: step(name) == MemberOutcome(objectMap, extractDir, env, name)
  {
    name => MemberOutcome(objectMap, extractDir, env, name)
  }

  /** The streaming extract-and-upload loop. */
  method UploadMembers(members: seq<string>, objectMap: map<string, ObjectInfo>, extractDir: string, env: TargetEnv)
    returns (uploads: seq<UploadRequest>, results: seq<bool>)
    ensures (uploads, results) == MemberUploads(members, StepOf(objectMap, extractDir, env))
  {
    var step := StepOf(objectMap, extractDir, env);
    uploads, results := [], [];
    var i := 0;
    while i < |members|
      invariant 0 <= i <= |members|
      invariant (uploads, results) == MemberUploads(members[..i], step)
    {
      assert members[..i + 1][..i] == members[..i];
      var name := members[i];
      var relativeKey := MemberKey(name);
      if relativeKey in objectMap {
        var info := objectMap[relativeKey].(localPath := PathJoin(extractDir, name));
        var ok, requests := UploadObjectToTargets(info, true, env.region, env.s3);
        uploads := uploads + requests;
        results := results + [ok];
      }
      i := i + 1;
    }
    assert members[..i] == members;
  }

  /** The upload phase for the normal targets: uploads, results, and whether the staging object goes. */
  function NormalOutcome(c: Content, manifest: Manifest, normalTargets: seq<Destination>, env: TargetEnv)
    : (r: (seq<UploadRequest>, seq<bool>, bool))
    requires Unpackable(c)
  {
    var extractDir := PathJoin(env.tempDir, "extracted");
    var infos := Projected(manifest.objects.GetOr([]), Some(normalTargets), extractDir);
    if |infos| == 0 then ([], [], false)
    else
      var members := ObjectMembers(FileNames(c.payload.members));
      var (uploads, results) := MemberUploads(members, StepOf(ObjectMap(infos), extractDir, env));
      (uploads, results, |results| > 0 && false !in results)
  }

  /** The local path of a downloaded archive: a fresh id and the key's base name, in the temporary directory. */
  function DownloadPath(obj: S3Object, ids: nat -> string, env: TargetEnv): string {
    PathJoin(env.tempDir, ids(0) + "_" + Basename(obj.key, '/'))
  }

  /**
   * Processing of one staged archive: skipped when the download, the decompression or
   * the manifest fails; otherwise run through the backup phase (for every archive, as the
   * code does, even one without backup targets in this region), then either deleted
   * from staging (no normal target) or unpacked and uploaded member by member, the
   * staging object being deleted only when every upload succeeded.
   */
  function ArchiveOutcomeOf(obj: S3Object, downloaded: Option<Content>, ids: nat -> string, env: TargetEnv): ArchiveOutcome {
    if downloaded.None? || !Unpackable(downloaded.value) then Skipped
    else
      var c := downloaded.value;
      var manifest := ReadManifest(c);
      if manifest.None? then Skipped
      else
        var targets := manifest.value.targets.GetOr([]);
        var backupTargets := BackupTargets(targets, env.region);
        var normalTargets := NormalTargets(targets, env.region);
        var (backupRequests, catalogs) :=
          BackupOutcome(c, DownloadPath(obj, ids, env), manifest.value, backupTargets, ids, env);
        if normalTargets == [] then ArchiveOutcome(backupRequests, catalogs, [], [], true)
        else
          var (uploads, results, deleted) := NormalOutcome(c, manifest.value, normalTargets, env);
          ArchiveOutcome(backupRequests, catalogs, uploads, results, deleted)
  }

  /**
   * An archive without backup targets in this region sends no backup upload, although the
   * backup phase as written still runs for it.
   */
  lemma NoBackupTargetsArchiveUploadsNoBackup(obj: S3Object, c: Content, ids: nat -> string, env: TargetEnv)
    requires Unpackable(c) && ReadManifest(c).Some?
    requires BackupTargets(ReadManifest(c).value.targets.GetOr([]), env.region) == []
    ensures ArchiveOutcomeOf(obj, Some(c), ids, env).backupRequests == []
  {
    NoBackupTargetsNoBackupUploads(c, DownloadPath(obj, ids, env), ReadManifest(c).value, ids, env);
  }

  /** One archive of the batch loop. */
  method ProcessArchive(obj: S3Object, downloaded: Option<Content>, ids: nat -> string, env: TargetEnv)
    returns (outcome: ArchiveOutcome)
    ensures outcome == ArchiveOutcomeOf(obj, downloaded, ids, env)
  {
    if downloaded.None? {
      return Skipped;
    }
    var c := downloaded.value;
    if !Unpackable(c) {
      return Skipped;
    }
    var manifest := ReadManifest(c);
    if manifest.None? {
      return Skipped;
    }
    var targets := manifest.value.targets.GetOr([]);
    var backupTargets := BackupTargets(targets, env.region);
    var normalTargets := NormalTargets(targets, env.region);
    var backupRequests, catalogs := BackupPhase(c, DownloadPath(obj, ids, env), manifest.value, backupTargets, ids, env);
    if normalTargets == [] {
      return ArchiveOutcome(backupRequests, catalogs, [], [], true);
    }
    var extractDir := PathJoin(env.tempDir, "extracted");
    var infos := GetObjectPathsFromManifest(manifest.value.(targets := Some(normalTargets)), extractDir);
    if |infos| == 0 {
      return ArchiveOutcome(backupRequests, catalogs, [], [], false);
    }
    var objectMap := BuildObjectMap(infos);
    var members := ObjectMembers(FileNames(c.payload.members));
    var uploads, results := UploadMembers(members, objectMap, extractDir, env);
    outcome := ArchiveOutcome(backupRequests, catalogs, uploads, results, |results| > 0 && false !in results);
  }

  /**
   * The staging object is deleted only when it is no longer needed: either no target in
   * this region wants the objects, or the manifest knows at least one member of the tar
   * and every such member was uploaded to every target in this region.
   */
  lemma StagingDeletedOnlyWhenDelivered(obj: S3Object, c: Content, ids: nat -> string, env: TargetEnv)
    requires Unpackable(c) && ReadManifest(c).Some?
    requires ArchiveOutcomeOf(obj, Some(c), ids, env).stagingDeleted
    ensures var manifest := ReadManifest(c).value;
            var normalTargets := NormalTargets(manifest.targets.GetOr([]), env.region);
            var extractDir := PathJoin(env.tempDir, "extracted");
            var objectMap := ObjectMap(Projected(manifest.objects.GetOr([]), Some(normalTargets), extractDir));
            var members := ObjectMembers(FileNames(c.payload.members));
            normalTargets == [] ||
            ((exists i :: 0 <= i < |members| && MemberKey(members[i]) in objectMap) &&
             forall i :: 0 <= i < |members| && MemberKey(members[i]) in objectMap ==>
               MemberOutcome(objectMap, extractDir, env, members[i]).value.0)
  {
    var manifest := ReadManifest(c).value;
    var normalTargets := NormalTargets(manifest.targets.GetOr([]), env.region);
    var extractDir := PathJoin(env.tempDir, "extracted");
    var objectMap := ObjectMap(Projected(manifest.objects.GetOr([]), Some(normalTargets), extractDir));
    var step := StepOf(objectMap, extractDir, env);
    MemberResultsAllTrue(ObjectMembers(FileNames(c.payload.members)), step);
    MemberResultsPresent(ObjectMembers(FileNames(c.payload.members)), step);
  }

  /** A failed download, decompression or manifest read sends nothing and keeps the staging object. */
  lemma FailedArchiveKept(obj: S3Object, downloaded: Option<Content>, ids: nat -> string, env: TargetEnv)
    requires downloaded.None? || !Unpackable(downloaded.value) || ReadManifest(downloaded.value).None?
    ensures ArchiveOutcomeOf(obj, downloaded, ids, env) == Skipped
  {
  }

  /* ---------------------------------------------------------------------------------- */
  /* process_message_batch                                                              */
  /* ---------------------------------------------------------------------------------- */

  /** What one batch does: its return value, the deletions it requests and each archive's outcome. */
  datatype BatchOutcome = BatchOutcome(
    processed: int,
    testDeletes: seq<string>,
    deletes: seq<string>,
    archives: seq<ArchiveOutcome>)

  /** The ids of archive i. */
  function IdsOf(ids: (nat, nat) -> string, i: nat): nat -> string {
    (k: nat) => ids(i, k)
  }

  /** The list of `f(xs[k], k)` for each position k, built one element at a time. */
  function Indexed<T, U>(xs: seq<T>, f: (T, nat) -> U): (ys: seq<U>)
    ensures |ys| == |xs|
  {
    if |xs| == 0 then [] else Indexed(xs[..|xs| - 1], f) + [f(xs[|xs| - 1], |xs| - 1)]
  }

  /** Position i of that list is `f(xs[i], i)`. */
  lemma {:induction false} IndexedAt<T, U>(xs: seq<T>, f: (T, nat) -> U, i: int)
    requires 0 <= i < |xs|
    ensures Indexed(xs, f)[i] == f(xs[i], i)
  {
    var last := |xs| - 1;
    if i < last {
      IndexedAt(xs[..last], f, i);
      assert xs[..last][i] == xs[i];
    }
  }

  /** Archive k of a batch: downloaded as `downloads(k)`, with ids `ids(k, _)`. */
  function ArchiveStep(downloads: nat -> Option<Content>, ids: (nat, nat) -> string, env: TargetEnv)
    : (S3Object, nat) -> ArchiveOutcome
  {
    (obj: S3Object, k: nat) => ArchiveOutcomeOf(obj, downloads(k), IdsOf(ids, k), env)
  }

  /** The outcomes of the archives, in order; archive i is downloaded as `downloads(i)` and takes ids `ids(i, _)`. */
  function Archives(objects: seq<S3Object>, downloads: nat -> Option<Content>, ids: (nat, nat) -> string,
                    env: TargetEnv): (os: seq<ArchiveOutcome>)
    ensures |os| == |objects|
  {
    Indexed(objects, ArchiveStep(downloads, ids, env))
  }

  /** Archive i's outcome depends only on its own download and ids. */
  lemma ArchivesEach(objects: seq<S3Object>, downloads: nat -> Option<Content>,
                     ids: (nat, nat) -> string, env: TargetEnv, i: int)
    requires 0 <= i < |objects|
    ensures Archives(objects, downloads, ids, env)[i] == ArchiveOutcomeOf(objects[i], downloads(i), IdsOf(ids, i), env)
  {
    IndexedAt(objects, ArchiveStep(downloads, ids, env), i);
  }

  /**
   * `process_message_batch` on the messages received: test events are deleted at once;
   * a batch of only test events counts every message; a batch announcing no archive
   * counts its regular messages and deletes none of them; otherwise every archive is
   * processed and the regular messages are deleted and counted.
   */
  function BatchOutcomeOf(messages: seq<Message>, unquote: string -> string, downloads: nat -> Option<Content>,
                          ids: (nat, nat) -> string, env: TargetEnv): BatchOutcome {
    if |messages| == 0 then BatchOutcome(0, [], [], [])
    else
      var tests := TestHandles(messages);
      var regular := Regular(messages);
      if |regular| == 0 then BatchOutcome(|messages|, tests, [], [])
      else
        var objects := AllObjects(regular, unquote);
        if |objects| == 0 then BatchOutcome(|regular|, tests, [], [])
        else BatchOutcome(|regular|, tests, Handles(regular), Archives(objects, downloads, ids, env))
  }

  /** The loop over the announced archives. */
  method ProcessArchives(objects: seq<S3Object>, downloads: nat -> Option<Content>, ids: (nat, nat) -> string,
                         env: TargetEnv)
    returns (archives: seq<ArchiveOutcome>)
    ensures archives == Archives(objects, downloads, ids, env)
  {
    archives := [];
    var i := 0;
    while i < |objects|
      invariant 0 <= i <= |objects|
      invariant archives == Archives(objects[..i], downloads, ids, env)
    {
      assert objects[..i + 1][..i] == objects[..i];
      assert ArchiveStep(downloads, ids, env)(objects[i], i) == ArchiveOutcomeOf(objects[i], downloads(i), IdsOf(ids, i), env);
      var outcome := ProcessArchive(objects[i], downloads(i), IdsOf(ids, i), env);
      archives := archives + [outcome];
      i := i + 1;
    }
    assert objects[..i] == objects;
  }

  /** One batch of the polling loop. */
  method ProcessMessageBatch(messages: seq<Message>, unquote: string -> string, downloads: nat -> Option<Content>,
                             ids: (nat, nat) -> string, env: TargetEnv)
    returns (outcome: BatchOutcome)
    ensures outcome == BatchOutcomeOf(messages, unquote, downloads, ids, env)
  {
    if |messages| == 0 {
      return BatchOutcome(0, [], [], []);
    }
    var tests, regular := SplitTestEvents(messages);
    if |regular| == 0 {
      return BatchOutcome(|messages|, tests, [], []);
    }
    var handles, objects := CollectObjects(regular, unquote);
    if |objects| == 0 {
      return BatchOutcome(|regular|, tests, [], []);
    }
    var archives := ProcessArchives(objects, downloads, ids, env);
    outcome := BatchOutcome(|regular|, tests, handles, archives);
  }

  /**
   * A batch that announces archives asks for every message to be deleted exactly once,
   * whatever happens to the archives, and counts the regular messages.
   */
  lemma BatchDeletesEveryMessage(messages: seq<Message>, unquote: string -> string, downloads: nat -> Option<Content>,
                                 ids: (nat, nat) -> string, env: TargetEnv)
    requires |AllObjects(Regular(messages), unquote)| > 0
    ensures var o := BatchOutcomeOf(messages, unquote, downloads, ids, env);
            multiset(o.testDeletes + o.deletes) == multiset(Handles(messages)) &&
            o.processed == |messages| - |TestHandles(messages)|
  {
    TestSplit(messages);
    TestSplitCount(messages);
    assert messages != [];
  }

  /** The count returned never exceeds the messages received, and is zero only for an empty batch. */
  lemma BatchCountBounded(messages: seq<Message>, unquote: string -> string, downloads: nat -> Option<Content>,
                          ids: (nat, nat) -> string, env: TargetEnv)
    ensures var n := BatchOutcomeOf(messages, unquote, downloads, ids, env).processed;
            0 <= n <= |messages| && (n == 0 <==> |messages| == 0)
  {
    TestSplitCount(messages);
  }
}
