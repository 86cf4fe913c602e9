/**
 * The target agent's unpacking of a staged archive: the zstd payload is written out as
 * temp_dir/archive.tar, only the manifest is extracted up front, and single members are
 * extracted on demand later. The tar file is kept for those later extractions.
 */
module Decompression {
  import opened Wrappers
  import opened Strings
  import opened Records
  import opened FileSystem
  import Compression

  /**
   * `calculate_buffer_sizes`: 15% of the available memory, split 25/75 between the read
   * and the write buffer, each truncated to an integer.
   */
  function BufferSizes(availableMemory: nat): (sizes: (int, int))
    ensures 0 <= sizes.0 <= sizes.1
    ensures (sizes.0 + sizes.1) as real <= 0.15 * availableMemory as real
    ensures sizes.0 as real <= 0.15 * 0.25 * availableMemory as real < sizes.0 as real + 1.0
    ensures sizes.1 as real <= 0.15 * 0.75 * availableMemory as real < sizes.1 as real + 1.0
  {
    var maxBufferMemory := availableMemory as real * 0.15;
    ((maxBufferMemory * 0.25).Floor, (maxBufferMemory * 0.75).Floor)
  }

  /** The names of the non-directory members, in archive order. */
  function FileNames(members: seq<Member>): (names: seq<string>)
    ensures |names| <= |members|
    ensures forall n :: n in names <==> exists i :: 0 <= i < |members| && !members[i].isDir && members[i].name == n
  {
    if |members| == 0 then []
    else
      var m := members[|members| - 1];
      var init := members[..|members| - 1];
      var names := FileNames(init) + (if m.isDir then [] else [m.name]);
      assert forall i :: 0 <= i < |init| ==> init[i] == members[i];
      names
  }

  /** `get_tar_members`: the non-directory member names, or [] when the file is not a readable tar. */
  function TarMembers(files: map<string, Content>, tarPath: string): (names: seq<string>)
    ensures tarPath !in files || !files[tarPath].Tar? ==> names == []
    ensures tarPath in files && files[tarPath].Tar? ==> names == FileNames(files[tarPath].members)
  {
    if tarPath in files && files[tarPath].Tar? then FileNames(files[tarPath].members) else []
  }

  /** Index of the first member called `name`, or -1. */
  function FirstIndex(members: seq<Member>, name: string): (k: int)
    ensures -1 <= k < |members|
    ensures k == -1 <==> forall i :: 0 <= i < |members| ==> members[i].name != name
    ensures 0 <= k ==> members[k].name == name && forall j :: 0 <= j < k ==> members[j].name != name
  {
    if |members| == 0 then -1
    else if members[0].name == name then 0
    else
      var k := FirstIndex(members[1..], name);
      if k == -1 then -1 else k + 1
  }

  /** Index of the last member called `name` (the one `TarFile.getmember` returns), or -1. */
  function LastIndex(members: seq<Member>, name: string): (k: int)
    ensures -1 <= k < |members|
    ensures k == -1 <==> forall i :: 0 <= i < |members| ==> members[i].name != name
    ensures 0 <= k ==> members[k].name == name && forall j :: k < j < |members| ==> members[j].name != name
  {
    if |members| == 0 then -1
    else if members[|members| - 1].name == name then |members| - 1
    else LastIndex(members[..|members| - 1], name)
  }

  /** The disk after `tar.extract(member, path=dir)`: a file member lands at dir/name; a directory holds no file. */
  function Extracted(files: map<string, Content>, dir: string, m: Member): (after: map<string, Content>)
    ensures m.isDir ==> after == files
    ensures !m.isDir ==> after == files[PathJoin(dir, m.name) := m.body]
  {
    if m.isDir then files else files[PathJoin(dir, m.name) := m.body]
  }

  /**
   * `decompress_zstd_file`. A missing input fails before the output is opened; an input
   * that is not a zstd frame fails after the output was opened (and truncated). On
   * success the output holds the payload and both sizes are reported.
   */
  method DecompressZstdFile(disk: Disk, inputPath: string, outputPath: string)
    returns (ok: bool, compressedSize: int, decompressedSize: int)
    modifies disk
    ensures ok <==> inputPath in old(disk.files) && old(disk.files)[inputPath].Zst?
    ensures ok ==> compressedSize == SizeOf(old(disk.files)[inputPath]) &&
                   decompressedSize == SizeOf(old(disk.files)[inputPath].payload) &&
                   disk.files == old(disk.files)[outputPath := old(disk.files)[inputPath].payload]
    ensures !ok ==> compressedSize == 0 && decompressedSize == 0
    ensures inputPath !in old(disk.files) ==> disk.files == old(disk.files)
    ensures inputPath in old(disk.files) && !old(disk.files)[inputPath].Zst? ==>
              disk.files == old(disk.files)[outputPath := Bytes([])]
  {
    if inputPath !in disk.files {
      return false, 0, 0;
    }
    var input := disk.files[inputPath];
    var size := SizeOf(input);
    if !input.Zst? {
      disk.Write(outputPath, Bytes([]));
      return false, 0, 0;
    }
    disk.Write(outputPath, input.payload);
    return true, size, SizeOf(input.payload);
  }

  /**
   * `extract_manifest_only`: succeeds iff the file is a tar holding a member named exactly
   * 'manifest.json'; only the first such member is extracted, into `extractDir`.
   */
  method ExtractManifestOnly(disk: Disk, tarPath: string, extractDir: string) returns (ok: bool, manifestPath: string)
    modifies disk
    ensures ok <==> tarPath in old(disk.files) && old(disk.files)[tarPath].Tar? &&
                    FirstIndex(old(disk.files)[tarPath].members, "manifest.json") >= 0
    ensures ok ==> var members := old(disk.files)[tarPath].members;
                   manifestPath == PathJoin(extractDir, "manifest.json") &&
                   disk.files == Extracted(old(disk.files), extractDir, members[FirstIndex(members, "manifest.json")])
    ensures !ok ==> manifestPath == "" && disk.files == old(disk.files)
  {
    if tarPath !in disk.files || !disk.files[tarPath].Tar? {
      return false, "";
    }
    var members := disk.files[tarPath].members;
    var k := FirstIndex(members, "manifest.json");
    if k < 0 {
      return false, "";
    }
    var m := members[k];
    if !m.isDir {
      disk.Write(PathJoin(extractDir, m.name), m.body);
    }
    return true, PathJoin(extractDir, "manifest.json");
  }

  /**
   * `stream_extract_file`: extracts the member called `memberName` (the last one of that
   * name) and nothing else; an unknown name or an unreadable tar gives False.
   */
  method StreamExtractFile(disk: Disk, tarPath: string, memberName: string, extractDir: string) returns (ok: bool)
    modifies disk
    ensures ok <==> tarPath in old(disk.files) && old(disk.files)[tarPath].Tar? &&
                    LastIndex(old(disk.files)[tarPath].members, memberName) >= 0
    ensures ok ==> var members := old(disk.files)[tarPath].members;
                   disk.files == Extracted(old(disk.files), extractDir, members[LastIndex(members, memberName)])
    ensures !ok ==> disk.files == old(disk.files)
  {
    if tarPath !in disk.files || !disk.files[tarPath].Tar? {
      return false;
    }
    var members := disk.files[tarPath].members;
    var k := LastIndex(members, memberName);
    if k < 0 {
      return false;
    }
    var m := members[k];
    if !m.isDir {
      disk.Write(PathJoin(extractDir, m.name), m.body);
    }
    return true;
  }

  /** Whether `decompress_and_extract` succeeds on this content: a zstd frame around a tar holding a manifest. */
  predicate Unpackable(c: Content) {
    c.Zst? && c.payload.Tar? && FirstIndex(c.payload.members, "manifest.json") >= 0
  }

  /**
   * `decompress_and_extract`. The tar is written to temp_dir/archive.tar and kept; on
   * success only the manifest is extracted, into temp_dir/extracted, and the sizes are
   * reported. A decompression or manifest failure gives (False, '', 0, 0).
   */
  method DecompressAndExtract(disk: Disk, compressedPath: string, tempDir: string)
    returns (ok: bool, extractDir: string, compressedSize: int, decompressedSize: int)
    modifies disk
    ensures ok <==> compressedPath in old(disk.files) && Unpackable(old(disk.files)[compressedPath])
    ensures ok ==> var c := old(disk.files)[compressedPath];
                   var tarPath := PathJoin(tempDir, "archive.tar");
                   extractDir == PathJoin(tempDir, "extracted") &&
                   compressedSize == SizeOf(c) && decompressedSize == SizeOf(c.payload) &&
                   disk.files == Extracted(old(disk.files)[tarPath := c.payload], extractDir,
                                           c.payload.members[FirstIndex(c.payload.members, "manifest.json")])
    ensures !ok ==> extractDir == "" && compressedSize == 0 && decompressedSize == 0
    ensures !ok && compressedPath !in old(disk.files) ==> disk.files == old(disk.files)
    ensures !ok && compressedPath in old(disk.files) ==>
              var c := old(disk.files)[compressedPath];
              disk.files == old(disk.files)[PathJoin(tempDir, "archive.tar") := if c.Zst? then c.payload else Bytes([])]
  {
    var tarPath := PathJoin(tempDir, "archive.tar");
    var success, cSize, dSize := DecompressZstdFile(disk, compressedPath, tarPath);
    if !success {
      return false, "", 0, 0;
    }
    var dir := PathJoin(tempDir, "extracted");
    var manifestOk, _ := ExtractManifestOnly(disk, tarPath, dir);
    if !manifestOk {
      return false, "", 0, 0;
    }
    var members := TarMembers(disk.files, tarPath);
    return true, dir, cSize, dSize;
  }

  /** Archiving never deletes or changes a file whose path ends in 'manifest.json'. */
  lemma {:induction false} ArchiveKeepsManifests(todo: seq<Compression.FileToArchive>, files: map<string, Content>, p: string)
    requires p in files && EndsWith(p, "manifest.json")
    ensures p in Compression.Archive(todo, files).1 && Compression.Archive(todo, files).1[p] == files[p]
  {
    if |todo| > 0 {
      ArchiveKeepsManifests(todo[..|todo| - 1], files, p);
    }
  }

  /** Every member of an archive is named by the archive path of some listed file. */
  lemma {:induction false} ArchiveMemberNames(todo: seq<Compression.FileToArchive>, files: map<string, Content>)
    ensures forall i :: 0 <= i < |Compression.Archive(todo, files).0| ==>
              exists j :: 0 <= j < |todo| && Compression.Archive(todo, files).0[i].name == todo[j].archivePath
  {
    if |todo| > 0 {
      var init := todo[..|todo| - 1];
      ArchiveMemberNames(init, files);
      var f := todo[|todo| - 1];
      var acc := Compression.Archive(init, files);
      var before := acc.0;
      var after := Compression.Archive(todo, files).0;
      assert after == (if f.sourcePath in acc.1 then before + [Member(f.archivePath, false, acc.1[f.sourcePath])] else before);
      forall i | 0 <= i < |after|
        ensures exists j :: 0 <= j < |todo| && after[i].name == todo[j].archivePath
      {
        if i < |before| {
          var j :| 0 <= j < |init| && before[i].name == init[j].archivePath;
          assert todo[j] == init[j];
        } else {
          assert after[i].name == todo[|todo| - 1].archivePath;
        }
      }
    } else {
      assert Compression.Archive(todo, files).0 == [];
    }
  }

  /**
   * Across the two regions: in the tar `compress_objects` builds for a batch whose
   * manifest path ends in 'manifest.json', the first member named 'manifest.json' is the
   * manifest file exactly as it was on the source disk, so the target extracts that file.
   */
  lemma ArchivedManifestIsFirst(objects: seq<Compression.ObjectPath>, manifestPath: string, files: map<string, Content>)
    requires manifestPath in files && EndsWith(manifestPath, "manifest.json")
    ensures var members := Compression.Archive(Compression.BatchFiles(objects, manifestPath, files), files).0;
            var k := FirstIndex(members, "manifest.json");
            0 <= k && members[k] == Member("manifest.json", false, files[manifestPath])
  {
    var objectFiles := Compression.ObjectFiles(objects, files);
    var todo := Compression.BatchFiles(objects, manifestPath, files);
    assert todo[..|todo| - 1] == objectFiles;
    var before := Compression.Archive(objectFiles, files);
    ArchiveKeepsManifests(objectFiles, files, manifestPath);
    ArchiveMemberNames(objectFiles, files);
    ObjectFilesNotManifest(objects, files);
    var members := Compression.Archive(todo, files).0;
    assert members == before.0 + [Member("manifest.json", false, files[manifestPath])];
    forall i | 0 <= i < |before.0|
      ensures members[i].name != "manifest.json"
    {
      var j :| 0 <= j < |objectFiles| && before.0[i].name == objectFiles[j].archivePath;
    }
    assert members[|before.0|].name == "manifest.json";
  }

  /** No object of a batch is archived under the name 'manifest.json'. */
  lemma {:induction false} ObjectFilesNotManifest(objects: seq<Compression.ObjectPath>, files: map<string, Content>)
    ensures forall j :: 0 <= j < |Compression.ObjectFiles(objects, files)| ==>
              Compression.ObjectFiles(objects, files)[j].archivePath != "manifest.json"
  {
    if |objects| > 0 {
      ObjectFilesNotManifest(objects[..|objects| - 1], files);
      var o := objects[|objects| - 1];
      var _ := Compression.ArchivePathOf(o);
    }
  }

  /**
   * The manifest round trip through both regions' unpacking step: a staged archive of a
   * batch (compressed at any level, of any recorded size) unpacks, and the extracted
   * manifest file is the source's manifest file.
   */
  lemma BatchArchiveUnpacks(objects: seq<Compression.ObjectPath>, manifestPath: string, files: map<string, Content>,
                            tarSize: nat, level: int, compressedSize: nat)
    requires manifestPath in files && EndsWith(manifestPath, "manifest.json")
    ensures var c := Zst(Tar(Compression.Archive(Compression.BatchFiles(objects, manifestPath, files), files).0, tarSize),
                         level, compressedSize);
            Unpackable(c) &&
            c.payload.members[FirstIndex(c.payload.members, "manifest.json")].body == files[manifestPath] &&
            !c.payload.members[FirstIndex(c.payload.members, "manifest.json")].isDir
  {
    ArchivedManifestIsFirst(objects, manifestPath, files);
  }
}
