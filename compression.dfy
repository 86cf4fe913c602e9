/**
 * The source agent's archive assembly: downloaded objects and the manifest go into a
 * tar under a private temporary directory (each object file is deleted once archived),
 * the tar is compressed with zstd at a level the compression manager picks, and the
 * temporary directory is removed whatever happens.
 */
module Compression {
  import opened Wrappers
  import opened Strings
  import opened Records
  import opened FileSystem
  import opened CompressionSettingsRepository
  import opened CompressionManager

  /** The zstd level used when no bucket is known. */
  const DefaultLevel: int := 12

  /**
   * `calculate_buffer_sizes`: 15% of the available memory, split 45/55 between the read
   * and the write buffer, each truncated to an integer.
   */
  function BufferSizes(availableMemory: nat): (sizes: (int, int))
    ensures 0 <= sizes.0 <= sizes.1
    ensures (sizes.0 + sizes.1) as real <= 0.15 * availableMemory as real
    ensures sizes.0 as real <= 0.15 * 0.45 * availableMemory as real < sizes.0 as real + 1.0
    ensures sizes.1 as real <= 0.15 * 0.55 * availableMemory as real < sizes.1 as real + 1.0
  {
    var maxBufferMemory := availableMemory as real * 0.15;
    ((maxBufferMemory * 0.45).Floor, (maxBufferMemory * 0.55).Floor)
  }

  /** One file to archive: where it is on disk and its name inside the tar. */
  datatype FileToArchive = FileToArchive(sourcePath: string, archivePath: string)

  /** One archived file's effect: a member with its current content, then its deletion unless it is a manifest. */
  function ArchiveStep(acc: (seq<Member>, map<string, Content>), f: FileToArchive): (seq<Member>, map<string, Content>) {
    var (members, files) := acc;
    if f.sourcePath in files then
      (members + [Member(f.archivePath, false, files[f.sourcePath])],
       if EndsWith(f.sourcePath, "manifest.json") then files else files - {f.sourcePath})
    else acc
  }

  /** The members written and the disk left after archiving `todo` in order, starting from `files`. */
  function Archive(todo: seq<FileToArchive>, files: map<string, Content>): (seq<Member>, map<string, Content>) {
    if |todo| == 0 then ([], files)
    else ArchiveStep(Archive(todo[..|todo| - 1], files), todo[|todo| - 1])
  }

  predicate DistinctSources(todo: seq<FileToArchive>) {
    forall i, j :: 0 <= i < j < |todo| ==> todo[i].sourcePath != todo[j].sourcePath
  }

  /** The members of an archive of distinct existing-or-missing files: each existing file once, in order. */
  function ExistingMembers(todo: seq<FileToArchive>, files: map<string, Content>): seq<Member> {
    if |todo| == 0 then []
    else
      var f := todo[|todo| - 1];
      ExistingMembers(todo[..|todo| - 1], files) +
      (if f.sourcePath in files then [Member(f.archivePath, false, files[f.sourcePath])] else [])
  }

  /** The source files archiving deletes: every listed one except manifests. */
  function Deleted(todo: seq<FileToArchive>): set<string> {
    set i | 0 <= i < |todo| && !EndsWith(todo[i].sourcePath, "manifest.json") :: todo[i].sourcePath
  }

  /**
   * For distinct source paths the archive holds exactly the existing sources, in order,
   * with their contents, and every archived source except a manifest is gone from disk.
   */
  lemma {:induction false} ArchiveDistinct(todo: seq<FileToArchive>, files: map<string, Content>)
    requires DistinctSources(todo)
    ensures Archive(todo, files).0 == ExistingMembers(todo, files)
    ensures Archive(todo, files).1 == files - Deleted(todo)
  {
    if |todo| > 0 {
      var init := todo[..|todo| - 1];
      var f := todo[|todo| - 1];
      ArchiveDistinct(init, files);
      assert f.sourcePath !in Deleted(init);
      assert Deleted(todo) == Deleted(init) + (if EndsWith(f.sourcePath, "manifest.json") then {} else {f.sourcePath}) by {
        forall p | p in Deleted(todo) ensures p in Deleted(init) || (p == f.sourcePath && !EndsWith(p, "manifest.json")) {
          var i :| 0 <= i < |todo| && !EndsWith(todo[i].sourcePath, "manifest.json") && todo[i].sourcePath == p;
          if i < |init| {
            assert init[i] == todo[i];
          }
        }
        forall p | p in Deleted(init) ensures p in Deleted(todo) {
          var i :| 0 <= i < |init| && !EndsWith(init[i].sourcePath, "manifest.json") && init[i].sourcePath == p;
          assert todo[i] == init[i];
        }
      }
    }
  }

  /**
   * `create_tar_archive`: the tar always goes to temp_dir/archive.tar (the output path is
   * not used); a failure to open the tar leaves the disk as it was.
   */
  method CreateTarArchive(disk: Disk, todo: seq<FileToArchive>, outputPath: string, tempDir: string,
                          tarFault: bool, tarSize: nat)
    returns (ok: bool, tarPath: string)
    modifies disk
    ensures tarFault ==> !ok && tarPath == "" && disk.files == old(disk.files)
    ensures !tarFault ==> ok && tarPath == PathJoin(tempDir, "archive.tar")
    ensures !tarFault ==>
              disk.files == Archive(todo, old(disk.files)).1[tarPath := Tar(Archive(todo, old(disk.files)).0, tarSize)]
  {
    if tarFault {
      return false, "";
    }
    tarPath := PathJoin(tempDir, "archive.tar");
    var members: seq<Member> := [];
    var i := 0;
    while i < |todo|
      invariant 0 <= i <= |todo|
      invariant (members, disk.files) == Archive(todo[..i], old(disk.files))
    {
      assert todo[..i + 1][..i] == todo[..i];
      var sourcePath := todo[i].sourcePath;
      if sourcePath in disk.files {
        members := members + [Member(todo[i].archivePath, false, disk.files[sourcePath])];
        if !EndsWith(sourcePath, "manifest.json") {
          disk.Remove(sourcePath);
        }
      }
      i := i + 1;
    }
    assert todo[..i] == todo;
    disk.Write(tarPath, Tar(members, tarSize));
    ok := true;
  }

  /** The zstd level: an explicit one; else the manager's choice when a bucket is known; else 12. */
  function ResolvedLevel(level: Option<int>, bucket: string, prefix: string, ddbKeyName: string,
                         table: map<string, RawItem>, draws: LevelDraws, cpuFactor: real): (lv: Option<int>)
    ensures level.Some? ==> lv == level
    ensures level.None? && bucket == "" ==> lv == Some(DefaultLevel)
    ensures level.None? && bucket != "" ==>
              lv == LevelFor(table, SettingsKey(ddbKeyName, bucket, prefix), draws.getFault, draws.now, cpuFactor, draws.r, draws.d)
  {
    if level.None? && bucket != "" then
      LevelFor(table, SettingsKey(ddbKeyName, bucket, prefix), draws.getFault, draws.now, cpuFactor, draws.r, draws.d)
    else Some(level.GetOr(DefaultLevel))
  }

  /** Whether the level choice consults the manager (and may create a settings record). */
  predicate AsksManager(level: Option<int>, bucket: string) {
    level.None? && bucket != ""
  }

  /**
   * `compress_tar_with_zstd`. A missing tar fails before anything else; otherwise the
   * level is resolved (a failing level choice fails the call), the tar is compressed into
   * `outputPath` and deleted. Any failure returns (False, 0, 0, 0) and keeps the tar.
   */
  method CompressTarWithZstd(disk: Disk, mgr: Manager, tarPath: string, outputPath: string,
                             bucket: string, prefix: string, level: Option<int>, ddbKeyName: string,
                             draws: LevelDraws, zstdFault: bool, compressedSize: nat)
    returns (ok: bool, originalSize: int, outSize: int, levelUsed: int)
    requires mgr.repository.Valid()
    modifies disk, mgr.repository
    ensures mgr.repository.Valid()
    ensures tarPath !in old(disk.files) ==>
              !ok && originalSize == 0 && outSize == 0 && levelUsed == 0 &&
              disk.files == old(disk.files) && mgr.repository.table == old(mgr.repository.table)
    ensures tarPath in old(disk.files) ==>
              var lv := ResolvedLevel(level, bucket, prefix, ddbKeyName, old(mgr.repository.table), draws, mgr.cpuFactor);
              mgr.repository.table ==
                (if AsksManager(level, bucket)
                 then TableAfterLookup(old(mgr.repository.table), SettingsKey(ddbKeyName, bucket, prefix),
                                       draws.getFault, draws.createFault, draws.now)
                 else old(mgr.repository.table)) &&
              (ok <==> lv.Some? && !zstdFault) &&
              (ok ==> originalSize == SizeOf(old(disk.files)[tarPath]) && outSize == compressedSize &&
                      levelUsed == lv.value &&
                      disk.files == old(disk.files)[outputPath := Zst(old(disk.files)[tarPath], lv.value, compressedSize)] - {tarPath}) &&
              (!ok ==> originalSize == 0 && outSize == 0 && levelUsed == 0 && disk.files == old(disk.files))
  {
    if tarPath !in disk.files {
      return false, 0, 0, 0;
    }
    var tar := disk.files[tarPath];
    var size := SizeOf(tar);
    var chosen: Option<int>;
    if level.None? && bucket != "" {
      chosen := mgr.GetCompressionLevel(bucket, prefix, ddbKeyName, draws.getFault, draws.createFault,
                                        draws.now, draws.r, draws.d);
    } else {
      chosen := Some(if level.Some? then level.value else DefaultLevel);
    }
    if chosen.None? || zstdFault {
      return false, 0, 0, 0;
    }
    disk.Write(outputPath, Zst(tar, chosen.value, compressedSize));
    disk.Remove(tarPath);
    return true, size, compressedSize, chosen.value;
  }

  /** One downloaded object: its local file, its name, and its key relative to the monitored prefix. */
  datatype ObjectPath = ObjectPath(localPath: string, objectName: string, relativeKey: Option<string>)

  /** 'objects/<relative_key>' when the relative key is non-empty, else 'objects/<object_name>'. */
  function ArchivePathOf(o: ObjectPath): (p: string)
    ensures StartsWith(p, "objects/") && p != "manifest.json"
  {
    var p := "objects/" + (if Truthy(o.relativeKey) then o.relativeKey.value else o.objectName);
    assert p[0] == 'o' != "manifest.json"[0];
    p
  }

  /** The archive list for the objects whose file exists, in input order. */
  function ObjectFiles(objects: seq<ObjectPath>, files: map<string, Content>): (todo: seq<FileToArchive>)
    ensures |todo| <= |objects|
  {
    if |objects| == 0 then []
    else
      var o := objects[|objects| - 1];
      ObjectFiles(objects[..|objects| - 1], files) +
      (if o.localPath in files then [FileToArchive(o.localPath, ArchivePathOf(o))] else [])
  }

  /** The summed size of the objects whose file exists. */
  function ObjectsSize(objects: seq<ObjectPath>, files: map<string, Content>): nat {
    if |objects| == 0 then 0
    else
      var o := objects[|objects| - 1];
      ObjectsSize(objects[..|objects| - 1], files) + (if o.localPath in files then SizeOf(files[o.localPath]) else 0)
  }

  /** The full archive list of a batch: the existing objects, then the manifest as 'manifest.json'. */
  function BatchFiles(objects: seq<ObjectPath>, manifestPath: string, files: map<string, Content>): seq<FileToArchive> {
    ObjectFiles(objects, files) + [FileToArchive(manifestPath, "manifest.json")]
  }

  /**
   * `compress_objects`. Returns (success, output path, original size, compressed size,
   * level); the original size sums the existing object files and the manifest. A missing
   * manifest, a tar failure or a compression failure gives (False, '', 0, 0, 0). The
   * private temporary directory is removed on every path.
   */
  method CompressObjects(disk: Disk, mgr: Manager, objects: seq<ObjectPath>, manifestPath: string, outputDir: string,
                         bucket: string, prefix: string, ddbKeyName: string, draws: LevelDraws,
                         privateTempDir: string, tarFault: bool, tarSize: nat, zstdFault: bool, compressedSize: nat)
    returns (ok: bool, outPath: string, originalSize: int, outSize: int, level: int)
    requires mgr.repository.Valid()
    modifies disk, mgr.repository
    ensures mgr.repository.Valid()
    ensures !ok ==> outPath == "" && originalSize == 0 && outSize == 0 && level == 0
    ensures manifestPath !in old(disk.files) || tarFault ==>
              !ok && disk.files == WithoutDir(old(disk.files), privateTempDir) &&
              mgr.repository.table == old(mgr.repository.table)
    ensures manifestPath in old(disk.files) && !tarFault ==>
              var todo := BatchFiles(objects, manifestPath, old(disk.files));
              var tarPath := PathJoin(privateTempDir, "archive.tar");
              var staged := Archive(todo, old(disk.files)).1[tarPath := Tar(Archive(todo, old(disk.files)).0, tarSize)];
              var lv := ResolvedLevel(None, bucket, prefix, ddbKeyName, old(mgr.repository.table), draws, mgr.cpuFactor);
              mgr.repository.table ==
                (if AsksManager(None, bucket)
                 then TableAfterLookup(old(mgr.repository.table), SettingsKey(ddbKeyName, bucket, prefix),
                                       draws.getFault, draws.createFault, draws.now)
                 else old(mgr.repository.table)) &&
              (ok <==> lv.Some? && !zstdFault) &&
              (ok ==> outPath == PathJoin(outputDir, "archive.tar.zst") &&
                      originalSize == ObjectsSize(objects, old(disk.files)) + SizeOf(old(disk.files)[manifestPath]) &&
                      outSize == compressedSize && level == lv.value &&
                      disk.files == WithoutDir(staged[outPath := Zst(staged[tarPath], lv.value, compressedSize)] - {tarPath},
                                               privateTempDir)) &&
              (!ok ==> disk.files == WithoutDir(staged, privateTempDir))
  {
    var todo: seq<FileToArchive> := [];
    var total: nat := 0;
    var i := 0;
    while i < |objects|
      invariant 0 <= i <= |objects|
      invariant todo == ObjectFiles(objects[..i], disk.files)
      invariant total == ObjectsSize(objects[..i], disk.files)
    {
      assert objects[..i + 1][..i] == objects[..i];
      var o := objects[i];
      var archivePath := if Truthy(o.relativeKey) then "objects/" + o.relativeKey.value else "objects/" + o.objectName;
      if o.localPath in disk.files {
        total := total + SizeOf(disk.files[o.localPath]);
        todo := todo + [FileToArchive(o.localPath, archivePath)];
      }
      i := i + 1;
    }
    assert objects[..i] == objects;
    if manifestPath !in disk.files {
      disk.RemoveTree(privateTempDir);
      return false, "", 0, 0, 0;
    }
    total := total + SizeOf(disk.files[manifestPath]);
    todo := todo + [FileToArchive(manifestPath, "manifest.json")];
    var tarOk, tarPath := CreateTarArchive(disk, todo, outputDir, privateTempDir, tarFault, tarSize);
    if !tarOk {
      disk.RemoveTree(privateTempDir);
      return false, "", 0, 0, 0;
    }
    var outputPath := PathJoin(outputDir, "archive.tar.zst");
    var zOk, _, zSize, zLevel := CompressTarWithZstd(disk, mgr, tarPath, outputPath, bucket, prefix, None,
                                                     ddbKeyName, draws, zstdFault, compressedSize);
    disk.RemoveTree(privateTempDir);
    if zOk {
      return true, outputPath, total, zSize, zLevel;
    }
    return false, "", 0, 0, 0;
  }

  /** The archive paths of a batch are 'objects/...' for every object and 'manifest.json' last. */
  lemma {:induction false} BatchArchiveNames(objects: seq<ObjectPath>, files: map<string, Content>)
    ensures forall k :: 0 <= k < |ObjectFiles(objects, files)| ==>
              StartsWith(ObjectFiles(objects, files)[k].archivePath, "objects/")
  {
    if |objects| > 0 {
      BatchArchiveNames(objects[..|objects| - 1], files);
    }
  }
}
