/**
 * The local disk the agents stage files on, as a map from path to content. File
 * formats the agents only hand to libraries (JSON, tar, zstd) are kept as structured
 * contents; each encoded content carries the byte size the library produced.
 */
module FileSystem {
  import opened Strings
  import opened Records

  datatype Content =
    | Bytes(data: seq<bv8>)
    | ManifestDoc(manifest: Manifest, size: nat)
    | Tar(members: seq<Member>, size: nat)
    | Zst(payload: Content, level: int, size: nat)

  /** A tar member: its name, whether it is a directory entry, and its content. */
  datatype Member = Member(name: string, isDir: bool, body: Content)

  /** `os.path.getsize` */
  function SizeOf(c: Content): nat {
    if c.Bytes? then |c.data| else c.size
  }

  /** A path under directory `dir`. */
  predicate InDir(p: string, dir: string) {
    StartsWith(p, dir + "/")
  }

  /** The files left after `shutil.rmtree(dir)`. */
  function WithoutDir(files: map<string, Content>, dir: string): (after: map<string, Content>)
    ensures forall p :: p in after <==> p in files && !InDir(p, dir)
    ensures forall p :: p in after ==> after[p] == files[p]
  {
    map p | p in files && !InDir(p, dir) :: files[p]
  }

  /** The disk. */
  class Disk {
    var files: map<string, Content>

    constructor (initial: map<string, Content>)
      ensures files == initial
    {
      files := initial;
    }

    /** Creates or replaces one file. */
    method Write(path: string, c: Content)
      modifies this
      ensures files == old(files)[path := c]
    {
      files := files[path := c];
    }

    /** `os.remove` of one file; a missing file changes nothing. */
    method Remove(path: string)
      modifies this
      ensures files == old(files) - {path}
    {
      files := files - {path};
    }

    /** `shutil.rmtree`: every file under the directory goes. */
    method RemoveTree(dir: string)
      modifies this
      ensures files == WithoutDir(old(files), dir)
    {
      files := WithoutDir(files, dir);
    }
  }
}
