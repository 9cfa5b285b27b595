/**
 * Calendar dates as the host's DateTime carries them, and the fixed
 * `yyyyMMdd` layout in which the downloader writes `upload_date`.
 */
module Dates {
  import opened Wrappers

  /** 100-nanosecond ticks in one day. */
  const TicksPerDay: int := 864_000_000_000

  /** A point in time: the calendar fields plus the ticks elapsed since midnight. */
  datatype DateTime = DateTime(year: int, month: int, day: int, timeOfDay: int)

  predicate IsLeapYear(y: int) {
    y % 4 == 0 && (y % 100 != 0 || y % 400 == 0)
  }

  function DaysInMonth(y: int, m: int): (r: int)
    ensures 1 <= m <= 12 ==> 28 <= r <= 31
  {
    if m == 2 then (if IsLeapYear(y) then 29 else 28)
    else if m == 4 || m == 6 || m == 9 || m == 11 then 30
    else 31
  }

  /** The calendar date lies in the range DateTime can represent. */
  predicate ValidDate(y: int, m: int, d: int) {
    1 <= y <= 9999 && 1 <= m <= 12 && 1 <= d <= DaysInMonth(y, m)
  }

  predicate Valid(t: DateTime) {
    ValidDate(t.year, t.month, t.day) && 0 <= t.timeOfDay < TicksPerDay
  }

  /** DateTime.Compare: the order of the two instants, as -1, 0 or 1. */
  function Compare(a: DateTime, b: DateTime): (r: int)
    ensures r == 0 <==> a == b
    ensures -1 <= r <= 1
  {
    if a.year != b.year then (if a.year < b.year then -1 else 1)
    else if a.month != b.month then (if a.month < b.month then -1 else 1)
    else if a.day != b.day then (if a.day < b.day then -1 else 1)
    else if a.timeOfDay != b.timeOfDay then (if a.timeOfDay < b.timeOfDay then -1 else 1)
    else 0
  }

  /** Compare is antisymmetric in sign and its "at most" relation is transitive. */
  lemma CompareIsTotalOrder(a: DateTime, b: DateTime, c: DateTime)
    ensures Compare(a, b) == -Compare(b, a)
    ensures Compare(a, b) <= 0 && Compare(b, c) <= 0 ==> Compare(a, c) <= 0
  {
  }

  // ----- decimal digits -----

  predicate IsDigit(c: char) { '0' <= c <= '9' }

  predicate AllDigits(s: string) { forall k :: 0 <= k < |s| ==> IsDigit(s[k]) }

  function DigitValue(c: char): nat
    requires IsDigit(c)
  {
    (c - '0') as nat
  }

  function DigitChar(n: nat): (c: char)
    requires n < 10
    ensures IsDigit(c) && DigitValue(c) == n
  {
    ('0' as int + n) as char
  }

  function Pow10(w: nat): (r: nat)
    ensures r >= 1
  {
    if w == 0 then 1 else 10 * Pow10(w - 1)
  }

  /** The number a string of decimal digits denotes, most significant first. */
  function DigitsValue(s: string): (r: nat)
    requires AllDigits(s)
    ensures r < Pow10(|s|)
  {
    if s == [] then 0 else DigitsValue(s[..|s| - 1]) * 10 + DigitValue(s[|s| - 1])
  }

  /** `n` written in exactly `w` decimal digits, zero-padded on the left. */
  function PadDigits(n: nat, w: nat): (s: string)
    ensures |s| == w && AllDigits(s)
  {
    if w == 0 then "" else PadDigits(n / 10, w - 1) + [DigitChar(n % 10)]
  }

  lemma {:induction false} PadDigitsValue(n: nat, w: nat)
    requires n < Pow10(w)
    ensures DigitsValue(PadDigits(n, w)) == n
  {
    if w > 0 {
      PadDigitsValue(n / 10, w - 1);
      var s := PadDigits(n, w);
      assert s[..|s| - 1] == PadDigits(n / 10, w - 1);
    }
  }

  lemma {:induction false} DigitsValuePad(s: string)
    requires AllDigits(s)
    ensures PadDigits(DigitsValue(s), |s|) == s
  {
    if s != [] {
      var init := s[..|s| - 1];
      DigitsValuePad(init);
      var v := DigitsValue(s);
      assert v / 10 == DigitsValue(init);
      assert v % 10 == DigitValue(s[|s| - 1]);
    }
  }

  // ----- the yyyyMMdd layout -----

  /**
   * DateTime.ParseExact(s, "yyyyMMdd", null): exactly eight digits naming a
   * date the calendar has; the time of day is midnight.
   */
  function ParseYyyyMmDd(s: string): (r: Option<DateTime>)
    ensures r.Some? <==>
      |s| == 8 && AllDigits(s) && ValidDate(DigitsValue(s[..4]), DigitsValue(s[4..6]), DigitsValue(s[6..]))
    ensures r.Some? ==> Valid(r.value) && r.value.timeOfDay == 0 && r.value.year == DigitsValue(s[..4])
  {
    if |s| == 8 && AllDigits(s) then
      var y, m, d := DigitsValue(s[..4]), DigitsValue(s[4..6]), DigitsValue(s[6..]);
      if ValidDate(y, m, d) then Some(DateTime(y, m, d, 0)) else None
    else None
  }

  /** The date written back in the yyyyMMdd layout. */
  function FormatYyyyMmDd(t: DateTime): (s: string)
    requires ValidDate(t.year, t.month, t.day)
    ensures |s| == 8 && AllDigits(s)
  {
    PadDigits(t.year, 4) + PadDigits(t.month, 2) + PadDigits(t.day, 2)
  }

  /** Every date at midnight survives formatting and parsing. */
  lemma ParseFormatRoundTrip(t: DateTime)
    requires Valid(t) && t.timeOfDay == 0
    ensures ParseYyyyMmDd(FormatYyyyMmDd(t)) == Some(t)
  {
    var s := FormatYyyyMmDd(t);
    assert s[..4] == PadDigits(t.year, 4);
    assert s[4..6] == PadDigits(t.month, 2);
    assert s[6..] == PadDigits(t.day, 2);
    PadDigitsValue(t.year, 4);
    PadDigitsValue(t.month, 2);
    PadDigitsValue(t.day, 2);
  }

  /** Every string that parses is the formatted form of what it parses to. */
  lemma FormatParseRoundTrip(s: string)
    requires ParseYyyyMmDd(s).Some?
    ensures FormatYyyyMmDd(ParseYyyyMmDd(s).value) == s
  {
    DigitsValuePad(s[..4]);
    DigitsValuePad(s[4..6]);
    DigitsValuePad(s[6..]);
    assert s == s[..4] + s[4..6] + s[6..];
  }
}
