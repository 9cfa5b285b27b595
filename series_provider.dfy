/**
 * The local series provider: the series sidecar is the first `.info.json`
 * file under the series folder whose full path carries a bracketed channel
 * id; the change check looks for `<stem>.info.json` beside that sidecar.
 */
module SeriesProvider {
  import opened Wrappers
  import opened Strings
  import opened Paths
  import opened FileSystem
  import opened YoutubeIds
  import opened Records
  import LocalProvider


  /**
   * The glob's file test: the file name ends in `.info.json`. The glob
   * matcher compares ignoring case, so `X.INFO.JSON` passes too.
   */
  predicate IsInfoJsonFile(f: string) {
    EndsWithIgnoreCase(FileName(f), LocalProvider.InfoSuffix)
  }

  /** A series sidecar: a globbed file whose path the case-insensitive channel pattern matches. */
  predicate IsSeriesSidecar(f: string) {
    IsInfoJsonFile(f) && IsChannelMatchIgnoreCase(f)
  }

  /** The recursive glob for `.info.json` files under the series folder, in enumeration order. */
  function GlobInfoJson(files: seq<string>): (r: seq<string>)
    ensures forall f :: f in r <==> f in files && IsInfoJsonFile(f)
    ensures |r| <= |files|
  {
    if files == [] then []
    else
      assert files == [files[0]] + files[1..];
      var rest := GlobInfoJson(files[1..]);
      if IsInfoJsonFile(files[0]) then [files[0]] + rest else rest
  }

  /**
   * The glob keeps enumeration order: searching its output for a channel
   * match finds the first enumerated file that passes both tests.
   */
  lemma {:induction false} GlobKeepsOrder(files: seq<string>)
    ensures FirstWhere(GlobInfoJson(files), IsChannelMatchIgnoreCase) == FirstWhere(files, IsSeriesSidecar)
  {
    if files != [] {
      GlobKeepsOrder(files[1..]);
      var rest := GlobInfoJson(files[1..]);
      if IsInfoJsonFile(files[0]) {
        assert ([files[0]] + rest)[0] == files[0];
        assert ([files[0]] + rest)[1..] == rest;
      }
    }
  }

  /** `.INFO.JSON` ends in `.info.json` when case is ignored. */
  lemma UpperInfoSuffix(x: string)
    ensures EndsWithIgnoreCase(x + ".INFO.JSON", LocalProvider.InfoSuffix)
  {
    var u := ".INFO.JSON";
    var s := x + u;
    forall k | 0 <= k < |u| ensures AsciiLower(s[|s| - |u| + k]) == AsciiLower(LocalProvider.InfoSuffix[k]) {
      assert s[|x| + k] == u[k];
    }
  }

  /**
   * A sidecar spelled `.INFO.JSON` is globbed too, so when its path carries
   * a channel id it is the series sidecar.
   */
  lemma UpperCaseSidecarFound(dir: string, stem: string, t: string)
    requires dir != [] && dir[|dir| - 1] != Sep && HasNoSep(stem)
    requires NoOpenBracket(dir + [Sep] + stem)
    requires |t| == ChannelIdLength && forall k :: 0 <= k < |t| ==> IsIdChar(t[k])
    ensures var p := dir + [Sep] + stem + "[" + t + "]" + ".INFO.JSON"; SeriesInfo([p]) == Some(p)
  {
    var name := stem + "[" + t + "]" + ".INFO.JSON";
    var p := dir + [Sep] + stem + "[" + t + "]" + ".INFO.JSON";
    assert p == dir + [Sep] + name;
    assert HasNoSep(name) by {
      forall k | 0 <= k < |name| ensures name[k] != Sep {
        if k < |stem| { assert name[k] == stem[k]; }
        else if |stem| < k < |stem| + 1 + |t| { assert name[k] == t[k - |stem| - 1]; }
      }
    }
    SplitJoin(dir, name);
    UpperInfoSuffix(stem + "[" + t + "]");
    assert p == (dir + [Sep] + stem) + "[" + t + "]" + ".INFO.JSON";
    BracketedTokenIsExtracted(dir + [Sep] + stem, t, ".INFO.JSON");
    ChannelIgnoreCaseIsChannelMatch(p);
    assert GlobInfoJson([p]) == [p];
  }

  /** The first globbed file, in glob order, whose path the case-insensitive channel pattern matches. */
  function SeriesInfo(files: seq<string>): Option<string> {
    FirstWhere(GlobInfoJson(files), IsChannelMatchIgnoreCase)
  }

  /** The first element of `s` satisfying `p`, searching from the front. */
  function FirstWhere<T>(s: seq<T>, p: T -> bool): Option<T> {
    if s == [] then None
    else if p(s[0]) then Some(s[0])
    else FirstWhere(s[1..], p)
  }

  /** The element found is the leftmost one satisfying `p`; nothing is found only when no element does. */
  lemma {:induction false} FirstWhereIsLeftmost<T>(s: seq<T>, p: T -> bool)
    ensures var r := FirstWhere(s, p);
      r.Some? ==> exists k :: 0 <= k < |s| && s[k] == r.value && p(r.value) && forall j :: 0 <= j < k ==> !p(s[j])
    ensures FirstWhere(s, p).None? <==> forall x :: x in s ==> !p(x)
  {
    if s != [] && !p(s[0]) {
      var tail := s[1..];
      FirstWhereIsLeftmost(tail, p);
      assert s == [s[0]] + tail;
      var r := FirstWhere(tail, p);
      if r.Some? {
        var k :| 0 <= k < |tail| && tail[k] == r.value && p(r.value) && forall j :: 0 <= j < k ==> !p(tail[j]);
        assert s[k + 1] == r.value;
        assert forall j :: 1 <= j < k + 1 ==> s[j] == tail[j - 1];
      }
    }
  }

  /** GetSeriesInfo: a linear search over the globbed files that stops at the first channel match. */
  method GetSeriesInfo(files: seq<string>) returns (r: Option<string>)
    ensures r == SeriesInfo(files)
    ensures r.Some? ==> exists k :: 0 <= k < |files| && files[k] == r.value && IsSeriesSidecar(r.value)
                                    && forall j :: 0 <= j < k ==> !IsSeriesSidecar(files[j])
    ensures r.Some? ==> EndsWithIgnoreCase(r.value, LocalProvider.InfoSuffix) && ChannelId(r.value).Some?
    ensures r.None? <==> forall f :: f in files && IsInfoJsonFile(f) ==> ChannelId(f).None?
  {
    var candidates := GlobInfoJson(files);
    var i := 0;
    while i < |candidates|
      invariant 0 <= i <= |candidates|
      invariant SeriesInfo(files) == FirstWhere(candidates[i..], IsChannelMatchIgnoreCase)
    {
      if IsChannelMatchIgnoreCase(candidates[i]) {
        r := Some(candidates[i]);
        assert FirstWhere(candidates[i..], IsChannelMatchIgnoreCase) == r;
        SeriesInfoProperties(files);
        return;
      }
      assert candidates[i..][1..] == candidates[i + 1..];
      i := i + 1;
    }
    r := None;
    SeriesInfoProperties(files);
  }

  /**
   * The series sidecar is the first enumerated file that ends in
   * `.info.json` (ignoring case) and carries a channel id; none is found
   * only when no such file exists.
   */
  lemma SeriesInfoProperties(files: seq<string>)
    ensures SeriesInfo(files).Some? ==>
      var f := SeriesInfo(files).value;
      && (exists k :: 0 <= k < |files| && files[k] == f && IsSeriesSidecar(f) && forall j :: 0 <= j < k ==> !IsSeriesSidecar(files[j]))
      && EndsWithIgnoreCase(f, LocalProvider.InfoSuffix) && ChannelId(f).Some?
    ensures SeriesInfo(files).None? <==> forall f :: f in files && IsInfoJsonFile(f) ==> ChannelId(f).None?
  {
    GlobKeepsOrder(files);
    FirstWhereIsLeftmost(files, IsSeriesSidecar);
    if SeriesInfo(files).Some? {
      var f := SeriesInfo(files).value;
      ChannelIgnoreCaseIsChannelMatch(f);
      NameSuffixIsPathSuffix(f, LocalProvider.InfoSuffix);
    } else {
      forall f | f in files && IsInfoJsonFile(f) ensures ChannelId(f).None? {
        ChannelIgnoreCaseIsChannelMatch(f);
      }
    }
  }

  /** A file whose name ends in `suffix` (ignoring case) has a path ending in `suffix`. */
  lemma NameSuffixIsPathSuffix(f: string, suffix: string)
    requires EndsWithIgnoreCase(FileName(f), suffix)
    ensures EndsWithIgnoreCase(f, suffix)
  {
    FileNameIsSuffix(f);
    var n := FileName(f);
    forall k | 0 <= k < |suffix| ensures AsciiLower(f[|f| - |suffix| + k]) == AsciiLower(suffix[k]) {
      assert f[|f| - |n|..][|n| - |suffix| + k] == n[|n| - |suffix| + k];
    }
  }

  /**
   * GetInfoJson of the series provider: only `<dir>/<stem>.info.json`, with
   * no fallback to the directory listing. What that path is for a found
   * sidecar is stated by SeriesInfoJsonDoublesSuffix.
   */
  function SeriesInfoJson(fs: Snapshot, path: string): (r: FileMeta)
    ensures r == GetFileInfo(fs, LocalProvider.SpecificInfoPath(fs, path))
  {
    GetFileInfo(fs, LocalProvider.SpecificInfoPath(fs, path))
  }

  /**
   * Applied to a sidecar `dir/X.info.json`, the stem is `X.info`, so the file
   * checked is `dir/X.info.info.json`.
   */
  lemma SeriesInfoJsonDoublesSuffix(fs: Snapshot, dir: string, x: string)
    requires HasNoSep(x) && dir != [] && dir[|dir| - 1] != Sep
    requires var p := dir + [Sep] + x + LocalProvider.InfoSuffix; p !in fs.nodes || !fs.nodes[p].isDirectory
    ensures SeriesInfoJsonFullName(fs, dir, x) == dir + [Sep] + (x + ".info.info.json")
  {
    SpecificPathOfSidecar(fs, dir, x);
    DoubledSuffix(x);
  }

  /** The specific path computed for `dir/X.info.json`: `X.info` plus the suffix, in `dir`. */
  lemma SpecificPathOfSidecar(fs: Snapshot, dir: string, x: string)
    requires HasNoSep(x) && dir != [] && dir[|dir| - 1] != Sep
    requires var p := dir + [Sep] + x + LocalProvider.InfoSuffix; p !in fs.nodes || !fs.nodes[p].isDirectory
    ensures LocalProvider.SpecificInfoPath(fs, dir + [Sep] + x + LocalProvider.InfoSuffix) == dir + [Sep] + (x + ".info" + LocalProvider.InfoSuffix)
  {
    var p := dir + [Sep] + x + LocalProvider.InfoSuffix;
    SidecarStem(dir, x);
    assert LocalProvider.SearchDirectory(fs, p) == dir;
    var tail := x + ".info" + LocalProvider.InfoSuffix;
    assert tail[0] != Sep by {
      if x != [] { assert tail[0] == x[0]; } else { assert tail[0] == '.'; }
    }
  }

  lemma DoubledSuffix(x: string)
    ensures x + ".info" + LocalProvider.InfoSuffix == x + ".info.info.json"
  {
    assert ".info" + LocalProvider.InfoSuffix == ".info.info.json";
  }

  function SeriesInfoJsonFullName(fs: Snapshot, dir: string, x: string): string {
    SeriesInfoJson(fs, dir + [Sep] + x + LocalProvider.InfoSuffix).fullName
  }

  /** The directory of `dir/X.info.json` is `dir` and its stem is `X.info`. */
  lemma SidecarStem(dir: string, x: string)
    requires HasNoSep(x) && dir != [] && dir[|dir| - 1] != Sep
    ensures DirectoryName(dir + [Sep] + x + LocalProvider.InfoSuffix) == dir
    ensures FileNameWithoutExtension(dir + [Sep] + x + LocalProvider.InfoSuffix) == x + ".info"
  {
    var name := x + LocalProvider.InfoSuffix;
    LocalProvider.SidecarNameHasNoSep(x);
    SplitJoin(dir, name);
    assert dir + [Sep] + x + LocalProvider.InfoSuffix == dir + [Sep] + name;
    LocalProvider.SidecarNameLastDot(x);
  }

  /**
   * HasChanged as written: when a series sidecar is found, the file checked
   * is `<stem>.info.json` beside it, and the item counts as changed when that
   * file exists and was written strictly BEFORE the last save.
   */
  function ChangedAsWritten(fs: Snapshot, infoPath: Option<string>, dateLastSaved: int): bool {
    if infoPath.None? || infoPath.value == "" then false
    else
      var infoJson := SeriesInfoJson(fs, infoPath.value);
      infoJson.present && infoJson.lastWriteUtc < dateLastSaved
  }

  /** The change check as the other local providers make it: the sidecar itself, written after the last save. */
  function Changed(fs: Snapshot, infoPath: Option<string>, dateLastSaved: int): bool {
    if infoPath.None? || infoPath.value == "" then false
    else
      var infoJson := GetFileInfo(fs, infoPath.value);
      infoJson.present && infoJson.lastWriteUtc > dateLastSaved
  }

  /** HasChanged: locate the series sidecar, then apply the check as written. */
  method HasChanged(fs: Snapshot, files: seq<string>, dateLastSaved: int) returns (result: bool)
    ensures result == ChangedAsWritten(fs, SeriesInfo(files), dateLastSaved)
    ensures SeriesInfo(files).None? ==> !result
    ensures result ==> var f := LocalProvider.SpecificInfoPath(fs, SeriesInfo(files).value);
                       f in fs.nodes && fs.nodes[f].lastWriteUtc < dateLastSaved
  {
    var infoPath := GetSeriesInfo(files);
    result := false;
    if !(infoPath.None? || infoPath.value == "") {
      var infoJson := SeriesInfoJson(fs, infoPath.value);
      result := infoJson.present && infoJson.lastWriteUtc < dateLastSaved;
    }
  }

  /**
   * As written, a series sidecar `dir/X.info.json` rewritten after the last
   * save is not noticed when no `dir/X.info.info.json` exists.
   */
  lemma RewrittenSidecarMissedAsWritten(fs: Snapshot, dir: string, x: string, t: int, dateLastSaved: int)
    requires HasNoSep(x) && dir != [] && dir[|dir| - 1] != Sep
    requires t > dateLastSaved
    requires dir + [Sep] + (x + ".info.info.json") !in fs.nodes
    ensures var p := dir + [Sep] + x + LocalProvider.InfoSuffix;
            var fs' := fs.(nodes := fs.nodes[p := Node(false, t)]);
            !ChangedAsWritten(fs', Some(p), dateLastSaved) && Changed(fs', Some(p), dateLastSaved)
  {
    var p := dir + [Sep] + x + LocalProvider.InfoSuffix;
    var fs' := fs.(nodes := fs.nodes[p := Node(false, t)]);
    SeriesInfoJsonDoublesSuffix(fs', dir, x);
    assert dir + [Sep] + (x + ".info.info.json") != p by {
      assert |dir + [Sep] + (x + ".info.info.json")| == |p| + 5;
    }
  }

  /** Corrected: rewriting the found sidecar after the last save is always reported as a change. */
  lemma RewrittenSidecarNoticed(fs: Snapshot, p: string, t: int, dateLastSaved: int)
    requires p != [] && t > dateLastSaved
    ensures Changed(fs.(nodes := fs.nodes[p := Node(false, t)]), Some(p), dateLastSaved)
  {
  }

  /** Corrected: a sidecar not written since the last save is never reported as a change. */
  lemma UntouchedSidecarUnchanged(fs: Snapshot, p: string, dateLastSaved: int)
    requires p in fs.nodes && fs.nodes[p].lastWriteUtc <= dateLastSaved
    ensures !Changed(fs, Some(p), dateLastSaved)
  {
  }

  /**
   * GetMetadata: no series sidecar gives the empty result; otherwise the
   * sidecar's record mapped as a series.
   */
  method GetMetadata(files: seq<string>, sidecars: LocalProvider.Sidecars) returns (r: MetadataResult)
    ensures SeriesInfo(files).None? ==> r == NoMetadata
    ensures r.hasMetadata ==> SeriesInfo(files).Some? && SeriesInfo(files).value in sidecars
                              && r == JsonToSeries(sidecars[SeriesInfo(files).value])
    ensures SeriesInfo(files).Some? && SeriesInfo(files).value in sidecars ==> r.hasMetadata
  {
    r := NoMetadata;
    var infoPath := GetSeriesInfo(files);
    if infoPath.None? || infoPath.value == "" {
      return;
    }
    if infoPath.value in sidecars {
      r := JsonToSeries(sidecars[infoPath.value]);
    }
  }
}
