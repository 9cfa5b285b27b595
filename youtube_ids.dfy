/**
 * The identifiers embedded in file paths: a video id is an 11-character
 * token and a channel id a 24-character token, each standing directly
 * between `[` and `]`, drawn from the alphabet [a-zA-Z0-9_-]. The two
 * patterns are a lookbehind for `[`, a fixed-length run of id characters and
 * a lookahead for `]`; a search returns the leftmost match.
 */
module YoutubeIds {
  import opened Wrappers
  import opened Strings

  /** The provider key under which extracted ids are stored. */
  const ProviderId: string := "YoutubeMetadata"

  const VideoIdLength: nat := 11
  const ChannelIdLength: nat := 24

  /** The character class [a-zA-Z0-9\-_]. */
  predicate IsIdChar(c: char) {
    'a' <= c <= 'z' || 'A' <= c <= 'Z' || '0' <= c <= '9' || c == '-' || c == '_'
  }

  /**
   * Membership in the id class, optionally ignoring case: under IgnoreCase a
   * character belongs when it or its other-case form does.
   */
  predicate InIdClass(c: char, ignoreCase: bool) {
    IsIdChar(c) || (ignoreCase && (IsIdChar(AsciiLower(c)) || IsIdChar(AsciiUpper(c))))
  }

  /** The pattern `(?<=\[)[a-zA-Z0-9\-_]{n}(?=\])` matches at position `i` of `s`. */
  predicate MatchAt(s: string, n: nat, i: int, ignoreCase: bool) {
    && 1 <= i
    && i + n < |s|
    && s[i - 1] == '['
    && s[i + n] == ']'
    && forall k :: i <= k < i + n ==> InIdClass(s[k], ignoreCase)
  }

  /** The leftmost match at or after position `from`. */
  function FindFrom(s: string, n: nat, from: nat, ignoreCase: bool): (r: Option<nat>)
    ensures r.Some? ==> from <= r.value && MatchAt(s, n, r.value, ignoreCase)
    ensures r.Some? ==> forall j :: from <= j < r.value ==> !MatchAt(s, n, j, ignoreCase)
    ensures r.None? ==> forall j :: from <= j ==> !MatchAt(s, n, j, ignoreCase)
    decreases |s| - from
  {
    if from + n >= |s| then None
    else if MatchAt(s, n, from, ignoreCase) then Some(from)
    else FindFrom(s, n, from + 1, ignoreCase)
  }

  /** Regex.Match: the start of the leftmost match, if there is one. */
  function FindMatch(s: string, n: nat, ignoreCase: bool): (r: Option<nat>)
    ensures r.Some? ==> MatchAt(s, n, r.value, ignoreCase)
    ensures r.Some? ==> forall j :: 0 <= j < r.value ==> !MatchAt(s, n, j, ignoreCase)
    ensures r.None? <==> forall j :: 0 <= j ==> !MatchAt(s, n, j, ignoreCase)
  {
    FindFrom(s, n, 0, ignoreCase)
  }

  /** `t` stands in `s` at position `i`, directly between `[` and `]`. */
  predicate BracketedAt(s: string, i: int, t: string) {
    1 <= i && i + |t| < |s| && s[i - 1] == '[' && s[i..i + |t|] == t && s[i + |t|] == ']'
  }

  /**
   * The matched text, as `Regex.Match(s).Value` returns it: the leftmost `n`
   * id characters in `s` that `[` precedes and `]` follows.
   */
  function Extract(s: string, n: nat): (r: Option<string>)
    ensures r.Some? ==> |r.value| == n && forall k :: 0 <= k < n ==> IsIdChar(r.value[k])
    ensures r.Some? ==> exists i :: BracketedAt(s, i, r.value) && forall j :: 0 <= j < i ==> !MatchAt(s, n, j, false)
    ensures r.None? <==> forall j :: 0 <= j ==> !MatchAt(s, n, j, false)
  {
    match FindMatch(s, n, false)
    case None => None
    case Some(i) =>
      assert BracketedAt(s, i, s[i..i + n]);
      Some(s[i..i + n])
  }

  /** YoutubeVideoIdRegex.Match(path).Value, when it succeeds. */
  function VideoId(path: string): Option<string> {
    Extract(path, VideoIdLength)
  }

  /** YoutubeChannelIdRegex.Match(path).Value, when it succeeds. */
  function ChannelId(path: string): Option<string> {
    Extract(path, ChannelIdLength)
  }

  /** The channel pattern compiled with IgnoreCase, as the series provider does. */
  predicate IsChannelMatchIgnoreCase(path: string) {
    FindMatch(path, ChannelIdLength, true).Some?
  }

  // ----- properties -----

  /** The alphabet holds both cases, so ignoring case admits no new character. */
  lemma IgnoreCaseSameClass(c: char)
    ensures InIdClass(c, true) <==> IsIdChar(c)
  {
  }

  /** Hence the case-insensitive pattern finds exactly the case-sensitive matches. */
  lemma {:induction false} IgnoreCaseSameMatches(s: string, n: nat, from: nat)
    ensures FindFrom(s, n, from, true) == FindFrom(s, n, from, false)
    decreases |s| - from
  {
    if from + n < |s| {
      forall k | from <= k < from + n ensures InIdClass(s[k], true) == InIdClass(s[k], false) {
        IgnoreCaseSameClass(s[k]);
      }
      assert MatchAt(s, n, from, true) == MatchAt(s, n, from, false);
      IgnoreCaseSameMatches(s, n, from + 1);
    }
  }

  lemma ChannelIgnoreCaseIsChannelMatch(path: string)
    ensures IsChannelMatchIgnoreCase(path) <==> ChannelId(path).Some?
  {
    IgnoreCaseSameMatches(path, ChannelIdLength, 0);
  }

  predicate NoOpenBracket(s: string) {
    forall k :: 0 <= k < |s| ==> s[k] != '['
  }

  /** A path without `[` carries no id of any length (a parenthesised id, for one). */
  lemma NoBracketNoId(s: string, n: nat)
    requires NoOpenBracket(s)
    ensures Extract(s, n) == None
  {
  }

  /**
   * A bracketed token of well-formed id characters, with no `[` before it, is
   * exactly what the search returns for its own length.
   */
  lemma BracketedTokenIsExtracted(p: string, t: string, q: string)
    requires NoOpenBracket(p)
    requires forall k :: 0 <= k < |t| ==> IsIdChar(t[k])
    ensures Extract(p + "[" + t + "]" + q, |t|) == Some(t)
  {
    var s := p + "[" + t + "]" + q;
    var i := |p| + 1;
    assert s[i - 1] == '[' && s[i + |t|] == ']';
    assert forall k :: i <= k < i + |t| ==> s[k] == t[k - i];
    assert MatchAt(s, |t|, i, false);
    assert forall j :: 0 <= j < i ==> !MatchAt(s, |t|, j, false) by {
      forall k | 0 <= k < |p| ensures s[k] == p[k] {
      }
    }
    assert s[i..i + |t|] == t;
  }

  /**
   * No match of length `n` starts inside a bracketed token of another length:
   * a start position must follow `[` directly, and inside the token the
   * character at the far end is an id character, not `]`.
   */
  lemma OtherLengthTokenNoMatch(p: string, t: string, q: string, n: nat)
    requires forall k :: 0 <= k < |t| ==> IsIdChar(t[k])
    requires |t| != n
    ensures forall i :: |p| < i <= |p| + |t| + 2 ==> !MatchAt(p + "[" + t + "]" + q, n, i, false)
  {
    var s := p + "[" + t + "]" + q;
    forall i | |p| < i <= |p| + |t| + 2 ensures !MatchAt(s, n, i, false) {
      if i == |p| + 1 {
        if n < |t| {
          assert s[i + n] == t[n];
        } else if i + n < |s| {
          assert s[i + |t|] == ']' && !InIdClass(']', false);
        }
      } else if i <= |p| + |t| + 1 {
        assert s[i - 1] == t[i - |p| - 2];
      } else {
        assert s[i - 1] == ']';
      }
    }
  }

  /**
   * A path whose only bracketed token is a 24-character channel id yields no
   * 11-character video id.
   */
  lemma ChannelTokenHasNoVideoId(p: string, t: string, q: string)
    requires NoOpenBracket(p) && NoOpenBracket(q)
    requires |t| == ChannelIdLength && forall k :: 0 <= k < |t| ==> IsIdChar(t[k])
    ensures VideoId(p + "[" + t + "]" + q) == None
  {
    var s := p + "[" + t + "]" + q;
    OtherLengthTokenNoMatch(p, t, q, VideoIdLength);
    forall j | 0 <= j ensures !MatchAt(s, VideoIdLength, j, false) {
      if 1 <= j <= |p| {
        assert s[j - 1] == p[j - 1];
      } else if j > |p| + |t| + 2 && j < |s| {
        assert s[j - 1] == q[j - 1 - |p| - |t| - 2];
      }
    }
  }

  /** The path the remote-provider tests resolve: the bracketed id is found. */
  lemma TestPathWithId()
    ensures VideoId("/Something [AAAAAAAAAAA].mkv") == Some("AAAAAAAAAAA")
  {
    BracketedTokenIsExtracted("/Something ", "AAAAAAAAAAA", ".mkv");
    assert "/Something [AAAAAAAAAAA].mkv" == "/Something " + "[" + "AAAAAAAAAAA" + "]" + ".mkv";
  }

  /** The paths the remote-provider tests reject: no brackets, or the id in parentheses. */
  lemma TestPathsWithoutId()
    ensures VideoId("/Foo.mkv") == None
    ensures VideoId("/2019 - Foo (AAAAAAAAAAA).mp4") == None
  {
    NoBracketNoId("/Foo.mkv", VideoIdLength);
    NoBracketNoId("/2019 - Foo (AAAAAAAAAAA).mp4", VideoIdLength);
  }
}
