/**
 * A snapshot of the file system the providers query: for each path whether
 * it exists, whether it is a directory and when it was last written, plus
 * the file listing of each directory.
 */
module FileSystem {
  import opened Paths

  datatype Node = Node(isDirectory: bool, lastWriteUtc: int)

  datatype Snapshot = Snapshot(nodes: map<string, Node>, listing: map<string, seq<string>>)

  /** What the host's file-system abstraction reports about one path. */
  datatype FileMeta = FileMeta(fullName: string, name: string, present: bool, isDirectory: bool, lastWriteUtc: int)

  /** A path that does not exist: no directory, and the zero time. */
  function Missing(p: string): FileMeta {
    FileMeta(p, FileName(p), false, false, 0)
  }

  /** GetFileSystemInfo: the entry at `p`, file or directory. */
  function GetFileSystemInfo(fs: Snapshot, p: string): (r: FileMeta)
    ensures r.present <==> p in fs.nodes
    ensures r.isDirectory <==> p in fs.nodes && fs.nodes[p].isDirectory
  {
    if p in fs.nodes then FileMeta(p, FileName(p), true, fs.nodes[p].isDirectory, fs.nodes[p].lastWriteUtc)
    else Missing(p)
  }

  /** GetFileInfo / File.Exists: a file at `p`; a directory there does not count as one. */
  function GetFileInfo(fs: Snapshot, p: string): (r: FileMeta)
    ensures r.fullName == p && !r.isDirectory
    ensures r.present <==> p in fs.nodes && !fs.nodes[p].isDirectory
    ensures r.present ==> r.lastWriteUtc == fs.nodes[p].lastWriteUtc
  {
    if p in fs.nodes && !fs.nodes[p].isDirectory then FileMeta(p, FileName(p), true, false, fs.nodes[p].lastWriteUtc)
    else Missing(p)
  }

  /** GetFiles: the files listed directly in `dir`, in listing order. */
  function GetFiles(fs: Snapshot, dir: string): (r: seq<FileMeta>)
    ensures dir in fs.listing ==> |r| == |fs.listing[dir]|
    ensures dir in fs.listing ==> forall k :: 0 <= k < |r| ==> r[k] == GetFileInfo(fs, fs.listing[dir][k])
    ensures dir !in fs.listing ==> r == []
  {
    if dir in fs.listing then seq(|fs.listing[dir]|, k requires 0 <= k < |fs.listing[dir]| => GetFileInfo(fs, fs.listing[dir][k]))
    else []
  }

  /** Every listed path is an existing file directly inside the directory that lists it. */
  ghost predicate WellFormed(fs: Snapshot) {
    forall dir, f :: dir in fs.listing && f in fs.listing[dir] ==>
      f in fs.nodes && !fs.nodes[f].isDirectory && InDirectory(f, dir)
  }
}
