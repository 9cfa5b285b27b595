/**
 * The path helpers the providers call (directory name, file name, file name
 * without extension, change extension, combine), for paths whose separator
 * is `/`.
 */
module Paths {
  import opened Wrappers

  const Sep: char := '/'

  /** The position of the last `c` in `s`. */
  function LastIndexOf(s: string, c: char): (r: Option<nat>)
    ensures r.Some? ==> r.value < |s| && s[r.value] == c
    ensures r.Some? ==> forall k :: r.value < k < |s| ==> s[k] != c
    ensures r.None? ==> forall k :: 0 <= k < |s| ==> s[k] != c
  {
    LastIndexBefore(s, c, |s|)
  }

  /** The position of the last `c` among the first `n` characters of `s`. */
  function LastIndexBefore(s: string, c: char, n: nat): (r: Option<nat>)
    requires n <= |s|
    ensures r.Some? ==> r.value < n && s[r.value] == c
    ensures r.Some? ==> forall k :: r.value < k < n ==> s[k] != c
    ensures r.None? ==> forall k :: 0 <= k < n ==> s[k] != c
  {
    if n == 0 then None
    else if s[n - 1] == c then Some(n - 1)
    else LastIndexBefore(s, c, n - 1)
  }

  predicate HasNoSep(s: string) {
    forall k :: 0 <= k < |s| ==> s[k] != Sep
  }

  /** Path.GetFileName: everything after the last separator. */
  function FileName(p: string): (r: string)
    ensures HasNoSep(r)
  {
    match LastIndexOf(p, Sep)
    case None => p
    case Some(i) => p[i + 1..]
  }

  /**
   * Path.GetDirectoryName: everything before the last separator; the root
   * when that separator is the first character; empty for a bare name.
   */
  function DirectoryName(p: string): string {
    match LastIndexOf(p, Sep)
    case None => ""
    case Some(i) => if i == 0 then [Sep] else p[..i]
  }

  /** Path.GetFileNameWithoutExtension: the file name up to its last dot. */
  function FileNameWithoutExtension(p: string): (r: string)
    ensures HasNoSep(r)
  {
    var name := FileName(p);
    match LastIndexOf(name, '.')
    case None => name
    case Some(i) => name[..i]
  }

  /**
   * Path.ChangeExtension(p, ext) for an extension given without its dot: the
   * last dot of the file name and what follows it are replaced by `.ext`;
   * a name without a dot gains `.ext`.
   */
  function ChangeExtension(p: string, ext: string): string {
    var name := FileName(p);
    var prefix := match LastIndexOf(name, '.')
      case None => p
      case Some(i) => p[..|p| - |name| + i];
    prefix + "." + ext
  }

  /** Path.Combine: `b` alone when it is rooted or `a` is empty, else joined by one separator. */
  function Combine(a: string, b: string): string {
    if b != [] && b[0] == Sep then b
    else if a == [] then b
    else if a[|a| - 1] == Sep then a + b
    else a + [Sep] + b
  }

  /** `f` names an entry directly inside directory `dir`. */
  predicate InDirectory(f: string, dir: string) {
    f == Combine(dir, FileName(f))
  }

  /** Joining a directory and a separator-free name gives back that name, inside that directory. */
  lemma CombineName(dir: string, name: string)
    requires HasNoSep(name)
    ensures FileName(Combine(dir, name)) == name
    ensures InDirectory(Combine(dir, name), dir)
  {
    var c := Combine(dir, name);
    if dir != [] {
      var i := |c| - |name| - 1;
      assert c[i] == Sep;
      assert forall k :: i < k < |c| ==> c[k] == name[k - i - 1];
      assert LastIndexOf(c, Sep) == Some(i);
      assert c[i + 1..] == name;
    } else {
      assert LastIndexOf(c, Sep) == None;
    }
  }

  /** A directory without a trailing separator, a separator and a name split back into the two. */
  lemma SplitJoin(dir: string, name: string)
    requires HasNoSep(name) && dir != [] && dir[|dir| - 1] != Sep
    ensures DirectoryName(dir + [Sep] + name) == dir
    ensures FileName(dir + [Sep] + name) == name
  {
    var p := dir + [Sep] + name;
    LastSepOfJoin(dir, name);
    assert p[..|dir|] == dir;
    assert p[|dir| + 1..] == name;
  }

  /** Changing the extension of `dir/name` keeps the directory and the stem and appends the new extension. */
  lemma ChangeExtensionOfJoin(dir: string, name: string, ext: string)
    requires HasNoSep(name) && dir != [] && dir[|dir| - 1] != Sep
    ensures ChangeExtension(dir + [Sep] + name, ext) == dir + [Sep] + (FileNameWithoutExtension(dir + [Sep] + name) + "." + ext)
  {
    var p := dir + [Sep] + name;
    SplitJoin(dir, name);
    var stem := FileNameWithoutExtension(p);
    match LastIndexOf(name, '.')
    case None =>
      assert stem == name;
    case Some(j) =>
      assert stem == name[..j];
      assert p[..|p| - |name| + j] == dir + [Sep] + stem;
  }

  /**
   * For a path `dir/name` the sibling with a changed extension is the name's
   * stem plus that extension, combined with the same directory.
   */
  lemma ChangeExtensionIsSibling(dir: string, name: string, ext: string)
    requires HasNoSep(name) && dir != [] && dir[|dir| - 1] != Sep
    ensures DirectoryName(dir + [Sep] + name) == dir
    ensures FileName(dir + [Sep] + name) == name
    ensures ChangeExtension(dir + [Sep] + name, ext) == Combine(dir, FileNameWithoutExtension(dir + [Sep] + name) + "." + ext)
  {
    var p := dir + [Sep] + name;
    SplitJoin(dir, name);
    ChangeExtensionOfJoin(dir, name, ext);
    var stem := FileNameWithoutExtension(p);
    var tail := stem + "." + ext;
    assert tail != [] && tail[0] != Sep by {
      if stem != [] { assert tail[0] == stem[0]; } else { assert tail[0] == '.'; }
    }
  }

  lemma LastSepOfJoin(dir: string, name: string)
    requires HasNoSep(name)
    ensures LastIndexOf(dir + [Sep] + name, Sep) == Some(|dir|)
  {
    var p := dir + [Sep] + name;
    assert p[|dir|] == Sep;
    forall k | |dir| < k < |p| ensures p[k] != Sep {
      assert p[k] == name[k - |dir| - 1];
    }
    LastIndexOfUnique(p, Sep, |dir|);
  }

  /** A position holding `c` with no `c` after it is the last index of `c`. */
  lemma {:induction false} LastIndexOfUnique(s: string, c: char, i: nat)
    requires i < |s| && s[i] == c
    requires forall k :: i < k < |s| ==> s[k] != c
    ensures LastIndexOf(s, c) == Some(i)
  {
    LastIndexBeforeUnique(s, c, i, |s|);
  }

  lemma {:induction false} LastIndexBeforeUnique(s: string, c: char, i: nat, n: nat)
    requires i < n <= |s| && s[i] == c
    requires forall k :: i < k < n ==> s[k] != c
    ensures LastIndexBefore(s, c, n) == Some(i)
  {
    if i < n - 1 {
      LastIndexBeforeUnique(s, c, i, n - 1);
    }
  }

  /** The file name is the tail of the path. */
  lemma FileNameIsSuffix(p: string)
    ensures |FileName(p)| <= |p| && p[|p| - |FileName(p)|..] == FileName(p)
  {
  }
}
