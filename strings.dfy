/** String operations the plugin relies on: suffix tests and ordinal comparison. */
module Strings {

  /** String.EndsWith: `suffix` is the tail of `s`. */
  predicate EndsWith(s: string, suffix: string) {
    |suffix| <= |s| && s[|s| - |suffix|..] == suffix
  }

  /** ASCII case folding: upper-case letters to lower case, every other character unchanged. */
  function AsciiLower(c: char): char {
    if 'A' <= c <= 'Z' then (c as int + 32) as char else c
  }

  function AsciiUpper(c: char): char {
    if 'a' <= c <= 'z' then (c as int - 32) as char else c
  }

  /** String.EndsWith under ordinal-ignore-case comparison (ASCII folding). */
  predicate EndsWithIgnoreCase(s: string, suffix: string) {
    |suffix| <= |s| && forall k :: 0 <= k < |suffix| ==> AsciiLower(s[|s| - |suffix| + k]) == AsciiLower(suffix[k])
  }

  /** A case-sensitive suffix is also a suffix when case is ignored. */
  lemma EndsWithIgnoringCase(s: string, suffix: string)
    requires EndsWith(s, suffix)
    ensures EndsWithIgnoreCase(s, suffix)
  {
    forall k | 0 <= k < |suffix| ensures s[|s| - |suffix| + k] == suffix[k] {
      assert s[|s| - |suffix|..][k] == suffix[k];
    }
  }

  /**
   * Ordinal string comparison: the first differing character decides, and a
   * proper prefix sorts first. The result is -1, 0 or 1.
   */
  function CompareOrdinal(a: string, b: string): (r: int)
    ensures -1 <= r <= 1
    decreases |a|
  {
    if a == [] && b == [] then 0
    else if a == [] then -1
    else if b == [] then 1
    else if a[0] < b[0] then -1
    else if a[0] > b[0] then 1
    else CompareOrdinal(a[1..], b[1..])
  }

  /** Two strings compare equal exactly when they are the same string. */
  lemma {:induction false} CompareOrdinalZero(a: string, b: string)
    ensures CompareOrdinal(a, b) == 0 <==> a == b
    decreases |a|
  {
    if a != [] && b != [] && a[0] == b[0] {
      CompareOrdinalZero(a[1..], b[1..]);
      assert a == [a[0]] + a[1..];
      assert b == [b[0]] + b[1..];
    }
  }

  /** Swapping the operands flips the sign. */
  lemma {:induction false} CompareOrdinalAntisymmetric(a: string, b: string)
    ensures CompareOrdinal(a, b) == -CompareOrdinal(b, a)
    decreases |a|
  {
    if a != [] && b != [] && a[0] == b[0] {
      CompareOrdinalAntisymmetric(a[1..], b[1..]);
    }
  }

  /** "Sorts no later than" is transitive. */
  lemma {:induction false} CompareOrdinalTransitive(a: string, b: string, c: string)
    requires CompareOrdinal(a, b) <= 0 && CompareOrdinal(b, c) <= 0
    ensures CompareOrdinal(a, c) <= 0
    decreases |a|
  {
    if a != [] && b != [] && c != [] && a[0] == b[0] && b[0] == c[0] {
      CompareOrdinalTransitive(a[1..], b[1..], c[1..]);
    }
  }
}
