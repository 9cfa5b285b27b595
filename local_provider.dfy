/**
 * The local provider shared by episodes, movies and music videos: finding
 * the sidecar `.info.json` of a media path, deciding whether it changed
 * since the item was saved, and the guards around reading it.
 */
module LocalProvider {
  import opened Wrappers
  import opened Strings
  import opened Paths
  import opened FileSystem
  import opened Records

  const InfoSuffix: string := ".info.json"

  /** A separator-free name keeps no separator once `.info.json` is appended. */
  lemma SidecarNameHasNoSep(x: string)
    requires HasNoSep(x)
    ensures HasNoSep(x + InfoSuffix)
  {
    var name := x + InfoSuffix;
    forall k | 0 <= k < |name| ensures name[k] != Sep {
      if k >= |x| { assert name[k] == InfoSuffix[k - |x|]; }
    }
  }

  /** The last dot of `X.info.json` is the one before `json`, so its stem is `X.info`. */
  lemma SidecarNameLastDot(x: string)
    ensures LastIndexOf(x + InfoSuffix, '.') == Some(|x| + 5)
    ensures (x + InfoSuffix)[..|x| + 5] == x + ".info"
  {
    var name := x + InfoSuffix;
    assert name[|x| + 5] == '.';
    forall k | |x| + 5 < k < |name| ensures name[k] != '.' {
      assert name[k] == InfoSuffix[k - |x|];
    }
    LastIndexOfUnique(name, '.', |x| + 5);
  }

  /** The directory searched: the path itself when it is a directory, else its parent. */
  function SearchDirectory(fs: Snapshot, path: string): (r: string)
    ensures GetFileSystemInfo(fs, path).isDirectory ==> r == path
    ensures !GetFileSystemInfo(fs, path).isDirectory ==> r == DirectoryName(path)
  {
    if GetFileSystemInfo(fs, path).isDirectory then path else DirectoryName(path)
  }

  /** `<dir>/<stem>.info.json`: the sidecar named after the media path. */
  function SpecificInfoPath(fs: Snapshot, path: string): string {
    Combine(SearchDirectory(fs, path), FileNameWithoutExtension(path) + InfoSuffix)
  }

  /** The files whose name ends in `.info.json`, in listing order. */
  function InfoFiles(files: seq<FileMeta>): (r: seq<FileMeta>)
    ensures forall f :: f in r <==> f in files && EndsWith(f.name, InfoSuffix)
    ensures |r| <= |files|
  {
    if files == [] then []
    else
      var rest := InfoFiles(files[1..]);
      assert files == [files[0]] + files[1..];
      if EndsWith(files[0].name, InfoSuffix) then [files[0]] + rest else rest
  }

  /**
   * Filtering keeps every match once: when exactly one listed file ends in
   * `.info.json`, the candidates are that file alone.
   */
  lemma {:induction false} SingleInfoFile(files: seq<FileMeta>, k: int)
    requires 0 <= k < |files| && EndsWith(files[k].name, InfoSuffix)
    requires forall j :: 0 <= j < |files| && j != k ==> !EndsWith(files[j].name, InfoSuffix)
    ensures InfoFiles(files) == [files[k]]
  {
    if k == 0 {
      NoInfoFiles(files[1..]);
    } else {
      SingleInfoFile(files[1..], k - 1);
    }
  }

  /** A listing with no file ending in `.info.json` gives no candidates. */
  lemma {:induction false} NoInfoFiles(files: seq<FileMeta>)
    requires forall j :: 0 <= j < |files| ==> !EndsWith(files[j].name, InfoSuffix)
    ensures InfoFiles(files) == []
  {
    if files != [] {
      NoInfoFiles(files[1..]);
    }
  }

  /** Two listed files ending in `.info.json` give at least two candidates. */
  lemma {:induction false} TwoInfoFiles(files: seq<FileMeta>, i: int, j: int)
    requires 0 <= i < j < |files|
    requires EndsWith(files[i].name, InfoSuffix) && EndsWith(files[j].name, InfoSuffix)
    ensures |InfoFiles(files)| >= 2
  {
    var rest := InfoFiles(files[1..]);
    if i == 0 {
      assert files[j] in files[1..];
      assert files[j] in rest;
    } else {
      TwoInfoFiles(files[1..], i - 1, j - 1);
    }
  }

  /** The sidecar candidates of the search directory. */
  function Candidates(fs: Snapshot, path: string): seq<FileMeta> {
    InfoFiles(GetFiles(fs, SearchDirectory(fs, path)))
  }

  /**
   * GetInfoJson: the specific sidecar when it exists, even if the directory
   * holds other sidecars; otherwise the one sidecar of the directory when
   * there is exactly one; otherwise the missing specific file.
   */
  function GetInfoJson(fs: Snapshot, path: string): (r: FileMeta)
    ensures GetFileInfo(fs, SpecificInfoPath(fs, path)).present ==> r == GetFileInfo(fs, SpecificInfoPath(fs, path))
    ensures !GetFileInfo(fs, SpecificInfoPath(fs, path)).present && |Candidates(fs, path)| == 1 ==>
              r == Candidates(fs, path)[0]
    ensures !GetFileInfo(fs, SpecificInfoPath(fs, path)).present && |Candidates(fs, path)| != 1 ==>
              !r.present && r.fullName == SpecificInfoPath(fs, path)
  {
    var file := GetFileInfo(fs, SpecificInfoPath(fs, path));
    if file.present then file
    else
      var infoFiles := Candidates(fs, path);
      if |infoFiles| == 1 then infoFiles[0] else file
  }

  /** In a well-formed snapshot the located file lies in the search directory. */
  lemma LocatedInSearchDirectory(fs: Snapshot, path: string)
    requires WellFormed(fs)
    ensures InDirectory(GetInfoJson(fs, path).fullName, SearchDirectory(fs, path))
  {
    if GetFileInfo(fs, SpecificInfoPath(fs, path)).present || |Candidates(fs, path)| != 1 {
      SidecarNameHasNoSep(FileNameWithoutExtension(path));
      CombineName(SearchDirectory(fs, path), FileNameWithoutExtension(path) + InfoSuffix);
    } else {
      CandidateInSearchDirectory(fs, SearchDirectory(fs, path), Candidates(fs, path)[0]);
    }
  }

  /** A sidecar candidate of a directory of a well-formed snapshot lies in that directory. */
  lemma CandidateInSearchDirectory(fs: Snapshot, dir: string, c: FileMeta)
    requires WellFormed(fs) && c in InfoFiles(GetFiles(fs, dir))
    ensures InDirectory(c.fullName, dir)
  {
    var k :| 0 <= k < |GetFiles(fs, dir)| && GetFiles(fs, dir)[k] == c;
    assert fs.listing[dir][k] in fs.listing[dir];
  }

  /** The specific sidecar is named `<stem>.info.json`. */
  lemma SpecificIsNamedSidecar(fs: Snapshot, path: string)
    ensures FileName(SpecificInfoPath(fs, path)) == FileNameWithoutExtension(path) + InfoSuffix
    ensures EndsWith(FileName(SpecificInfoPath(fs, path)), InfoSuffix)
  {
    var stem := FileNameWithoutExtension(path);
    var stemmed := stem + InfoSuffix;
    SidecarNameHasNoSep(stem);
    CombineName(SearchDirectory(fs, path), stemmed);
    assert stemmed[|stemmed| - |InfoSuffix|..] == InfoSuffix;
  }

  /** A located file that exists is a file whose name ends in `.info.json`. */
  lemma LocatedIsSidecar(fs: Snapshot, path: string)
    ensures var r := GetInfoJson(fs, path); r.present ==> !r.isDirectory && EndsWith(r.name, InfoSuffix)
  {
    var specific := SpecificInfoPath(fs, path);
    var r := GetInfoJson(fs, path);
    if GetFileInfo(fs, specific).present {
      SpecificIsNamedSidecar(fs, path);
      assert r.name == FileName(specific);
    } else if |Candidates(fs, path)| == 1 {
      assert r in Candidates(fs, path);
    }
  }

  /**
   * HasChanged: the located sidecar exists as a file in the snapshot and was
   * written strictly after the item was last saved.
   */
  function HasChanged(fs: Snapshot, path: string, dateLastSaved: int): (r: bool)
    ensures r <==> var f := GetInfoJson(fs, path).fullName;
                   f in fs.nodes && !fs.nodes[f].isDirectory && fs.nodes[f].lastWriteUtc > dateLastSaved
  {
    var infoJson := GetInfoJson(fs, path);
    LocatedIsFileInfo(fs, path);
    infoJson.present && infoJson.lastWriteUtc > dateLastSaved
  }

  /**
   * The fallback rule in terms of the directory listing: with the specific
   * file missing, the one listed `.info.json` file is chosen when it is the
   * only one, and the missing specific file is returned when there are two.
   */
  lemma LocatedByListing(fs: Snapshot, path: string, i: int, j: int)
    requires !GetFileInfo(fs, SpecificInfoPath(fs, path)).present
    requires var files := GetFiles(fs, SearchDirectory(fs, path));
      0 <= i < |files| && EndsWith(files[i].name, InfoSuffix) && 0 <= j < |files| && EndsWith(files[j].name, InfoSuffix)
    ensures var files := GetFiles(fs, SearchDirectory(fs, path));
      (forall k :: 0 <= k < |files| && k != i ==> !EndsWith(files[k].name, InfoSuffix)) ==> GetInfoJson(fs, path) == files[i]
    ensures i != j ==> GetInfoJson(fs, path) == GetFileInfo(fs, SpecificInfoPath(fs, path))
  {
    var files := GetFiles(fs, SearchDirectory(fs, path));
    if forall k :: 0 <= k < |files| && k != i ==> !EndsWith(files[k].name, InfoSuffix) {
      SingleInfoFile(files, i);
    }
    if i < j {
      TwoInfoFiles(files, i, j);
    } else if j < i {
      TwoInfoFiles(files, j, i);
    }
  }

  /** Whatever GetInfoJson returns is what GetFileInfo reports for its path. */
  lemma LocatedIsFileInfo(fs: Snapshot, path: string)
    ensures GetInfoJson(fs, path) == GetFileInfo(fs, GetInfoJson(fs, path).fullName)
  {
    var dir := SearchDirectory(fs, path);
    if !GetFileInfo(fs, SpecificInfoPath(fs, path)).present && |Candidates(fs, path)| == 1 {
      var c := Candidates(fs, path)[0];
      assert c in Candidates(fs, path);
      assert c in GetFiles(fs, dir);
      var k :| 0 <= k < |GetFiles(fs, dir)| && GetFiles(fs, dir)[k] == c;
    }
  }

  /** The records the sidecar files parse to; a path absent here reads as null. */
  type Sidecars = map<string, SidecarRecord>

  /**
   * GetMetadata: the sibling `ChangeExtension(path, "info.json")` must exist
   * and parse; then the kind-specific mapping builds the result. Any other
   * case is the empty result.
   */
  function GetMetadata(fs: Snapshot, sidecars: Sidecars, path: string, mapping: SidecarRecord -> MetadataResult): (r: MetadataResult)
    ensures !GetFileInfo(fs, ChangeExtension(path, "info.json")).present ==> r == NoMetadata
    ensures ChangeExtension(path, "info.json") !in sidecars ==> r == NoMetadata
    ensures GetFileInfo(fs, ChangeExtension(path, "info.json")).present && ChangeExtension(path, "info.json") in sidecars ==>
              r == mapping(sidecars[ChangeExtension(path, "info.json")])
  {
    var infoFile := ChangeExtension(path, "info.json");
    if !GetFileInfo(fs, infoFile).present then NoMetadata
    else if infoFile !in sidecars then NoMetadata
    else mapping(sidecars[infoFile])
  }

  /**
   * For a media file `dir/name`, the sibling GetMetadata reads is the same
   * file GetInfoJson tries first.
   */
  lemma SiblingIsSpecificFile(fs: Snapshot, dir: string, name: string)
    requires HasNoSep(name) && dir != [] && dir[|dir| - 1] != Sep
    requires dir + [Sep] + name !in fs.nodes || !fs.nodes[dir + [Sep] + name].isDirectory
    ensures ChangeExtension(dir + [Sep] + name, "info.json") == SpecificInfoPath(fs, dir + [Sep] + name)
  {
    ChangeExtensionIsSibling(dir, name, "info.json");
    DotInfoJson(FileNameWithoutExtension(dir + [Sep] + name));
  }

  lemma DotInfoJson(stem: string)
    ensures stem + "." + "info.json" == stem + InfoSuffix
  {
    assert "." + "info.json" == InfoSuffix;
  }
}
