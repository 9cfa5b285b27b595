/**
 * The episode indexer: a scheduled pass over the library that renumbers the
 * seasons and episodes of every series carrying the plugin's provider id.
 * Seasons are sorted by name and numbered 1..k; the episodes of a season are
 * sorted by premiere date and numbered either by their date
 * (`month*1000 + day*10 + same-date offset`, with the year as the season
 * number) when every episode has a date, or 1..n with the season's number.
 */
module EpisodeIndexer {
  import opened Wrappers
  import opened Dates
  import opened Strings
  import opened Sorting
  import YoutubeIds

  // ----- the library -----

  datatype ItemKind = SeriesItem | SeasonItem | EpisodeItem

  /**
   * A library item. Its kind, parent, name, premiere date and provider ids
   * are fixed during the pass; the indexer writes only the two ordering
   * numbers.
   */
  class Item {
    const kind: ItemKind
    const parent: Item?
    const name: Option<string>
    const premiereDate: Option<DateTime>
    const providerIds: map<string, string>
    var indexNumber: Option<int>
    var parentIndexNumber: Option<int>

    constructor (kind: ItemKind, parent: Item?, name: Option<string>, premiereDate: Option<DateTime>,
                 providerIds: map<string, string>, indexNumber: Option<int>, parentIndexNumber: Option<int>)
      ensures this.kind == kind && this.parent == parent && this.name == name
      ensures this.premiereDate == premiereDate && this.providerIds == providerIds
      ensures this.indexNumber == indexNumber && this.parentIndexNumber == parentIndexNumber
    {
      this.kind := kind;
      this.parent := parent;
      this.name := name;
      this.premiereDate := premiereDate;
      this.providerIds := providerIds;
      this.indexNumber := indexNumber;
      this.parentIndexNumber := parentIndexNumber;
    }
  }

  predicate Distinct(s: seq<Item>) {
    forall i, j :: 0 <= i < j < |s| ==> s[i] != s[j]
  }

  /** The elements of `s` that satisfy `p`, in order: the repository queries. */
  function Filter<T>(s: seq<T>, p: T -> bool): (r: seq<T>)
    ensures forall x :: x in r ==> x in s && p(x)
    ensures forall x {:trigger x in r} :: x in s && p(x) ==> x in r
    ensures |r| <= |s|
  {
    if s == [] then []
    else if p(s[0]) then [s[0]] + Filter(s[1..], p)
    else Filter(s[1..], p)
  }

  lemma {:induction false} FilterDistinct(s: seq<Item>, p: Item -> bool)
    requires Distinct(s)
    ensures Distinct(Filter(s, p))
  {
    if s != [] {
      var tail := s[1..];
      assert Distinct(tail) by {
        forall i, j | 0 <= i < j < |tail| ensures tail[i] != tail[j] {
          assert tail[i] == s[i + 1] && tail[j] == s[j + 1];
        }
      }
      FilterDistinct(tail, p);
      if p(s[0]) {
        var r := Filter(s, p);
        var rest := Filter(tail, p);
        assert s[0] !in tail by {
          forall k | 0 <= k < |tail| ensures tail[k] != s[0] {
            assert tail[k] == s[k + 1];
          }
        }
        forall i, j | 0 <= i < j < |r| ensures r[i] != r[j] {
          assert r[j] == rest[j - 1];
          if i > 0 { assert r[i] == rest[i - 1]; } else { assert r[j] in rest; }
        }
      }
    }
  }

  /** Filtering a list extended by one element extends the filtered list by that element when it passes. */
  lemma {:induction false} FilterSnoc<T>(s: seq<T>, x: T, p: T -> bool)
    ensures Filter(s + [x], p) == Filter(s, p) + (if p(x) then [x] else [])
  {
    if s != [] {
      assert (s + [x])[1..] == s[1..] + [x];
      FilterSnoc(s[1..], x, p);
    } else {
      assert (s + [x])[1..] == [];
    }
  }

  /** The filtered prefix grows by the next element when it passes. */
  lemma FilterTake<T>(s: seq<T>, i: int, p: T -> bool)
    requires 0 <= i < |s|
    ensures Filter(s[..i + 1], p) == Filter(s[..i], p) + (if p(s[i]) then [s[i]] else [])
  {
    TakeNext(s, i);
    FilterSnoc(s[..i], s[i], p);
  }

  lemma TakeAll<T>(s: seq<T>)
    ensures s[..|s|] == s
  {
  }

  lemma TakeNext<T>(s: seq<T>, i: int)
    requires 0 <= i < |s|
    ensures s[..i + 1] == s[..i] + [s[i]]
  {
  }

  predicate IsShow(x: Item) { x.kind == SeriesItem }

  /** A show the plugin manages: its provider ids carry the plugin's key. */
  predicate IsManaged(x: Item) { YoutubeIds.ProviderId in x.providerIds }

  /** The query for every series of the library, in repository order. */
  function Shows(items: seq<Item>): (r: seq<Item>)
    ensures forall x :: x in r ==> x in items && IsShow(x)
    ensures forall x {:trigger x in r} :: x in items && IsShow(x) ==> x in r
    ensures Distinct(items) ==> Distinct(r)
  {
    if Distinct(items) then FilterDistinct(items, IsShow); Filter(items, IsShow)
    else Filter(items, IsShow)
  }

  /** The query for the seasons whose parent is `show`. */
  function SeasonsOf(items: seq<Item>, show: Item): (r: seq<Item>)
    ensures forall x :: x in r ==> x in items && x.kind == SeasonItem && x.parent == show
    ensures forall x {:trigger x in r} :: x in items && x.kind == SeasonItem && x.parent == show ==> x in r
    ensures Distinct(items) ==> Distinct(r)
  {
    var isSeason := (x: Item) => x.kind == SeasonItem && x.parent == show;
    if Distinct(items) then FilterDistinct(items, isSeason); Filter(items, isSeason)
    else Filter(items, isSeason)
  }

  /** The query for the episodes under `season`. */
  function EpisodesOf(items: seq<Item>, season: Item): (r: seq<Item>)
    ensures forall x :: x in r ==> x in items && x.kind == EpisodeItem && x.parent == season
    ensures forall x {:trigger x in r} :: x in items && x.kind == EpisodeItem && x.parent == season ==> x in r
    ensures Distinct(items) ==> Distinct(r)
  {
    var isEpisode := (x: Item) => x.kind == EpisodeItem && x.parent == season;
    if Distinct(items) then FilterDistinct(items, isEpisode); Filter(items, isEpisode)
    else Filter(items, isEpisode)
  }

  /**
   * The show an item is renumbered with: a season's parent, or the parent of
   * an episode's season when that season is in the library.
   */
  function ShowOf(items: seq<Item>, x: Item): Item? {
    if x.kind == SeasonItem then x.parent
    else if x.kind == EpisodeItem && x.parent != null && x.parent.kind == SeasonItem && x.parent in items then x.parent.parent
    else null
  }

  /** The items the pass may renumber: seasons and episodes of managed shows in the library. */
  predicate Touched(items: seq<Item>, x: Item) {
    var sh := ShowOf(items, x);
    sh != null && sh in items && IsShow(sh) && IsManaged(sh)
  }

  // ----- the two comparisons -----

  /** The season comparison: two missing names are equal, a missing name comes first, else name order. */
  function CompareNames(a: Option<string>, b: Option<string>): (r: int)
    ensures -1 <= r <= 1
    ensures r == 0 <==> a == b
  {
    if a.None? && b.None? then 0
    else if a.None? then -1
    else if b.None? then 1
    else
      CompareOrdinalZero(a.value, b.value);
      CompareOrdinal(a.value, b.value)
  }

  /** The episode comparison: two missing dates are equal, a missing date comes first, else date order. */
  function CompareDates(a: Option<DateTime>, b: Option<DateTime>): (r: int)
    ensures -1 <= r <= 1
    ensures r == 0 <==> a == b
  {
    if a.None? && b.None? then 0
    else if a.None? then -1
    else if b.None? then 1
    else Compare(a.value, b.value)
  }

  predicate SeasonLe(x: Item, y: Item) { CompareNames(x.name, y.name) <= 0 }

  predicate EpisodeLe(x: Item, y: Item) { CompareDates(x.premiereDate, y.premiereDate) <= 0 }

  lemma CompareNamesIsTotalPreorder(a: Option<string>, b: Option<string>, c: Option<string>)
    ensures CompareNames(a, b) == -CompareNames(b, a)
    ensures CompareNames(a, b) <= 0 && CompareNames(b, c) <= 0 ==> CompareNames(a, c) <= 0
  {
    if a.Some? && b.Some? {
      CompareOrdinalAntisymmetric(a.value, b.value);
    }
    if a.Some? && b.Some? && c.Some? && CompareNames(a, b) <= 0 && CompareNames(b, c) <= 0 {
      CompareOrdinalTransitive(a.value, b.value, c.value);
    }
  }

  lemma CompareDatesIsTotalPreorder(a: Option<DateTime>, b: Option<DateTime>, c: Option<DateTime>)
    ensures CompareDates(a, b) == -CompareDates(b, a)
    ensures CompareDates(a, b) <= 0 && CompareDates(b, c) <= 0 ==> CompareDates(a, c) <= 0
  {
    if a.Some? && b.Some? && c.Some? {
      CompareIsTotalOrder(a.value, b.value, c.value);
    }
  }

  /** The season comparison is a total preorder, as List.Sort requires. */
  lemma SeasonLeTotal(s: seq<Item>)
    ensures TotalPreorderOn(s, SeasonLe)
  {
    forall x, y | x in s && y in s ensures SeasonLe(x, y) || SeasonLe(y, x) {
      CompareNamesIsTotalPreorder(x.name, y.name, y.name);
    }
    forall x, y, z | x in s && y in s && z in s && SeasonLe(x, y) && SeasonLe(y, z) ensures SeasonLe(x, z) {
      CompareNamesIsTotalPreorder(x.name, y.name, z.name);
    }
  }

  /** The episode comparison is a total preorder, as List.Sort requires. */
  lemma EpisodeLeTotal(s: seq<Item>)
    ensures TotalPreorderOn(s, EpisodeLe)
  {
    forall x, y | x in s && y in s ensures EpisodeLe(x, y) || EpisodeLe(y, x) {
      CompareDatesIsTotalPreorder(x.premiereDate, y.premiereDate, y.premiereDate);
    }
    forall x, y, z | x in s && y in s && z in s && EpisodeLe(x, y) && EpisodeLe(y, z) ensures EpisodeLe(x, z) {
      CompareDatesIsTotalPreorder(x.premiereDate, y.premiereDate, z.premiereDate);
    }
  }

  /** In season order the unnamed seasons come first and the named ones follow in name order. */
  lemma UnnamedSeasonsFirst(s: seq<Item>, i: int, j: int)
    requires SortedBy(s, SeasonLe) && 0 <= i < j < |s|
    ensures s[j].name.None? ==> s[i].name.None?
    ensures s[i].name.Some? ==> s[j].name.Some? && CompareOrdinal(s[i].name.value, s[j].name.value) <= 0
  {
    assert SeasonLe(s[i], s[j]);
  }

  /** In episode order the undated episodes come first and the dated ones follow in date order. */
  lemma UndatedEpisodesFirst(s: seq<Item>, i: int, j: int)
    requires SortedBy(s, EpisodeLe) && 0 <= i < j < |s|
    ensures s[j].premiereDate.None? ==> s[i].premiereDate.None?
    ensures s[i].premiereDate.Some? ==> s[j].premiereDate.Some? && Compare(s[i].premiereDate.value, s[j].premiereDate.value) <= 0
  {
    assert EpisodeLe(s[i], s[j]);
  }

  // ----- episode numbering, as values -----

  /** The premiere dates of a list of episodes, in list order. */
  function PremiereDates(eps: seq<Item>): (r: seq<Option<DateTime>>)
    ensures |r| == |eps| && forall k {:trigger eps[k].premiereDate} :: 0 <= k < |eps| ==> r[k] == eps[k].premiereDate
  {
    seq(|eps|, k requires 0 <= k < |eps| => eps[k].premiereDate)
  }

  predicate AllDated(ds: seq<Option<DateTime>>) {
    forall k :: 0 <= k < |ds| ==> ds[k].Some?
  }

  /**
   * The same-date offset at position `k`: 0 at the first episode and
   * whenever the date differs from the previous episode's, otherwise one
   * more than the previous offset. Dates compare as whole values, time of
   * day included.
   */
  function Offset(ds: seq<Option<DateTime>>, k: nat): nat
    requires k < |ds|
  {
    if k == 0 then 0
    else if ds[k] == ds[k - 1] then Offset(ds, k - 1) + 1
    else 0
  }

  /** The date-mode episode number. */
  function DateIndex(d: DateTime, offset: int): int {
    d.month * 1000 + d.day * 10 + offset
  }

  /** The two numbers the indexer writes on an item. */
  datatype Numbering = Numbering(indexNumber: Option<int>, parentIndexNumber: Option<int>)

  /** The date-mode numbers of position `k`: its date-mode number, with the premiere year as season number. */
  function DateNumbering(ds: seq<Option<DateTime>>, k: nat): Numbering
    requires k < |ds| && ds[k].Some?
  {
    Numbering(Some(DateIndex(ds[k].value, Offset(ds, k))), Some(ds[k].value.year))
  }

  /**
   * The numbers the episodes of a season receive, in sorted order: by date
   * with the year as the season number when every episode is dated,
   * otherwise 1..n with the season's own number.
   */
  function EpisodeNumbering(ds: seq<Option<DateTime>>, seasonIndex: int): (r: seq<Numbering>)
    ensures |r| == |ds|
  {
    if AllDated(ds) then
      seq(|ds|, k requires 0 <= k < |ds| => DateNumbering(ds, k))
    else
      seq(|ds|, k requires 0 <= k < |ds| => Numbering(Some(k + 1), Some(seasonIndex)))
  }

  /**
   * The offset counts the earlier members of the run of equal dates that
   * ends at `k`: the run starts exactly `Offset(ds, k)` positions back.
   */
  lemma {:induction false} OffsetIsRunLength(ds: seq<Option<DateTime>>, k: nat)
    requires k < |ds|
    ensures Offset(ds, k) <= k
    ensures forall j :: k - Offset(ds, k) <= j <= k ==> ds[j] == ds[k]
    ensures k - Offset(ds, k) > 0 ==> ds[k - Offset(ds, k) - 1] != ds[k]
  {
    if k > 0 && ds[k] == ds[k - 1] {
      OffsetIsRunLength(ds, k - 1);
    }
  }

  /** In date order, everything between two equal dates carries that date. */
  lemma EqualDatesAreContiguous(eps: seq<Item>, i: int, m: int, j: int)
    requires SortedBy(eps, EpisodeLe) && 0 <= i <= m <= j < |eps|
    requires eps[i].premiereDate == eps[j].premiereDate
    ensures eps[m].premiereDate == eps[i].premiereDate
  {
    if i < m < j {
      assert EpisodeLe(eps[i], eps[m]) && EpisodeLe(eps[m], eps[j]);
      CompareDatesIsTotalPreorder(eps[m].premiereDate, eps[i].premiereDate, eps[i].premiereDate);
    }
  }

  /** In date order, the k-th episode of a date has offset k: equal dates get consecutive offsets. */
  lemma {:induction false} EqualDatesOffsetsAscend(eps: seq<Item>, i: int, j: int)
    requires SortedBy(eps, EpisodeLe) && 0 <= i <= j < |eps|
    requires eps[i].premiereDate == eps[j].premiereDate
    ensures Offset(PremiereDates(eps), j) == Offset(PremiereDates(eps), i) + (j - i)
  {
    if i < j {
      var ds := PremiereDates(eps);
      EqualDatesAreContiguous(eps, i, j - 1, j);
      assert ds[j] == ds[j - 1];
      EqualDatesOffsetsAscend(eps, i, j - 1);
    }
  }

  /** Reading a date-mode number back into month, day and offset. */
  function DecodeDateIndex(n: int): (int, int, int) {
    (n / 1000, (n % 1000) / 10, n % 10)
  }

  /** For a real date and an offset below 10, the date-mode number decodes back to month, day and offset. */
  lemma DateIndexRoundTrip(d: DateTime, offset: int)
    requires Valid(d) && 0 <= offset <= 9
    ensures DecodeDateIndex(DateIndex(d, offset)) == (d.month, d.day, offset)
  {
    var low := d.day * 10 + offset;
    assert 0 <= low < 1000;
    var n := DateIndex(d, offset);
    assert n == d.month * 1000 + low;
    assert n / 1000 == d.month && n % 1000 == low;
    assert low / 10 == d.day && low % 10 == offset;
    assert n % 10 == offset;
  }

  /** The date-mode number is injective on (month, day, offset) while offsets stay below 10. */
  lemma DateIndexInjective(d: DateTime, o: int, e: DateTime, p: int)
    requires Valid(d) && Valid(e) && 0 <= o <= 9 && 0 <= p <= 9
    requires DateIndex(d, o) == DateIndex(e, p)
    ensures d.month == e.month && d.day == e.day && o == p
  {
    DateIndexRoundTrip(d, o);
    DateIndexRoundTrip(e, p);
  }

  /** Two episodes on the same day at different times both start a run, so they get the same numbers. */
  lemma SameDayDifferentTimesCollide(d: DateTime, e: DateTime, seasonIndex: int)
    requires d.year == e.year && d.month == e.month && d.day == e.day && d.timeOfDay != e.timeOfDay
    ensures var r := EpisodeNumbering([Some(d), Some(e)], seasonIndex); |r| == 2 && r[0] == r[1]
  {
    var ds := [Some(d), Some(e)];
    assert AllDated(ds);
    assert Offset(ds, 1) == 0;
  }

  /**
   * Eleven episodes on one date followed by one on the next day: the
   * eleventh gets offset 10 and the same number as the next day's first.
   */
  lemma EleventhSameDateCollidesWithNextDay(d: DateTime, e: DateTime, seasonIndex: int)
    requires e.year == d.year && e.month == d.month && e.day == d.day + 1
    ensures var ds := seq(11, _ => Some(d)) + [Some(e)];
            var r := EpisodeNumbering(ds, seasonIndex); |r| == 12 && r[10] == r[11]
  {
    var ds := seq(11, _ => Some(d)) + [Some(e)];
    assert AllDated(ds);
    OffsetIsRunLength(ds, 10);
    assert ds[11] != ds[10];
  }

  /**
   * In date order, with every offset below 10, two episodes receive
   * different numbers when they share the exact date or fall on different
   * calendar days; only distinct times on one day can collide.
   */
  lemma DateNumbersDistinct(eps: seq<Item>, seasonIndex: int, i: int, j: int)
    requires SortedBy(eps, EpisodeLe) && AllDated(PremiereDates(eps))
    requires forall k :: 0 <= k < |eps| ==> Valid(eps[k].premiereDate.value)
    requires forall k :: 0 <= k < |eps| ==> Offset(PremiereDates(eps), k) <= 9
    requires 0 <= i < j < |eps|
    requires var a := eps[i].premiereDate.value; var b := eps[j].premiereDate.value;
             a == b || a.year != b.year || a.month != b.month || a.day != b.day
    ensures EpisodeNumbering(PremiereDates(eps), seasonIndex)[i] != EpisodeNumbering(PremiereDates(eps), seasonIndex)[j]
  {
    var ds := PremiereDates(eps);
    var r := EpisodeNumbering(ds, seasonIndex);
    var a := ds[i].value;
    var b := ds[j].value;
    if a == b {
      EqualDatesOffsetsAscend(eps, i, j);
    }
  }

  // ----- the pass -----

  /** The numbers currently written on `xs`, in list order. */
  function NumbersOf(xs: seq<Item>): (r: seq<Numbering>)
    reads xs
    ensures |r| == |xs| && forall k {:trigger r[k]} :: 0 <= k < |xs| ==> r[k] == Numbering(xs[k].indexNumber, xs[k].parentIndexNumber)
  {
    seq(|xs|, k requires 0 <= k < |xs| reads xs => Numbering(xs[k].indexNumber, xs[k].parentIndexNumber))
  }

  /** The scan for a missing premiere date that decides between the two numberings. */
  method ShouldUseDate(eps: seq<Item>) returns (shouldUseDate: bool)
    ensures shouldUseDate <==> forall k :: 0 <= k < |eps| ==> eps[k].premiereDate.Some?
    ensures shouldUseDate <==> AllDated(PremiereDates(eps))
  {
    shouldUseDate := true;
    var i := 0;
    while i < |eps|
      invariant 0 <= i <= |eps|
      invariant shouldUseDate <==> forall k :: 0 <= k < i ==> eps[k].premiereDate.Some?
    {
      if eps[i].premiereDate.None? {
        shouldUseDate := false;
      }
      i := i + 1;
    }
  }

  /** Date mode: each episode gets its date-mode number, with its premiere year as the season number. */
  method NumberByDate(eps: seq<Item>)
    requires Distinct(eps) && AllDated(PremiereDates(eps))
    modifies set e | e in eps
    ensures forall k :: 0 <= k < |eps| ==>
      Numbering(eps[k].indexNumber, eps[k].parentIndexNumber) == DateNumbering(PremiereDates(eps), k)
  {
    var ds := PremiereDates(eps);
    var indexForDate := 0;
    var mostRecentDate: Option<DateTime> := None;
    var i := 0;
    while i < |eps|
      invariant 0 <= i <= |eps|
      invariant i == 0 ==> mostRecentDate.None?
      invariant i > 0 ==> mostRecentDate == ds[i - 1] && indexForDate == Offset(ds, i - 1)
      invariant forall j {:trigger DateNumbering(ds, j)} :: 0 <= j < i ==> Numbering(eps[j].indexNumber, eps[j].parentIndexNumber) == DateNumbering(ds, j)
    {
      var episode := eps[i];
      if ds[i] == mostRecentDate {
        indexForDate := indexForDate + 1;
      } else {
        indexForDate := 0;
        mostRecentDate := ds[i];
      }
      var date := ds[i].value;
      episode.indexNumber := Some(date.month * 1000 + date.day * 10 + indexForDate);
      episode.parentIndexNumber := Some(date.year);
      i := i + 1;
    }
  }

  /** Sequential mode: the episodes get 1..n in order, with the season's number as their season number. */
  method NumberSequentially(eps: seq<Item>, seasonIndex: int)
    requires Distinct(eps)
    modifies set e | e in eps
    ensures forall k :: 0 <= k < |eps| ==> eps[k].indexNumber == Some(k + 1) && eps[k].parentIndexNumber == Some(seasonIndex)
  {
    var eindex := 1;
    var i := 0;
    while i < |eps|
      invariant 0 <= i <= |eps| && eindex == i + 1
      invariant forall j :: 0 <= j < i ==> eps[j].indexNumber == Some(j + 1) && eps[j].parentIndexNumber == Some(seasonIndex)
    {
      var episode := eps[i];
      episode.indexNumber := Some(eindex);
      episode.parentIndexNumber := Some(seasonIndex);
      eindex := eindex + 1;
      i := i + 1;
    }
  }

  /** The numbering of one season's episodes, already in date order. */
  method IndexEpisodes(eps: seq<Item>, seasonIndex: int)
    requires Distinct(eps)
    modifies set e | e in eps
    ensures NumbersOf(eps) == EpisodeNumbering(PremiereDates(eps), seasonIndex)
  {
    var shouldUseDate := ShouldUseDate(eps);
    if shouldUseDate {
      NumberByDate(eps);
    } else {
      NumberSequentially(eps, seasonIndex);
    }
  }

  /** The orders the pass chose for one show: its seasons, and the episodes of the k-th season as the k-th list. */
  datatype ShowOrder = ShowOrder(seasons: seq<Item>, episodes: seq<seq<Item>>)

  /** Every item of a list of lists. */
  function Flatten(xss: seq<seq<Item>>): (r: set<Item>)
    ensures forall k, x :: 0 <= k < |xss| && x in xss[k] ==> x in r
    ensures forall x :: x in r ==> exists k :: 0 <= k < |xss| && x in xss[k]
  {
    if xss == [] then {} else (set x | x in xss[0]) + Flatten(xss[1..])
  }

  /** `order` holds the episodes of `season` in date order. */
  ghost predicate IsEpisodeOrder(items: seq<Item>, season: Item, order: seq<Item>) {
    IsSortedPermutation(order, EpisodesOf(items, season), EpisodeLe)
  }

  /** The episodes in `order` carry the numbers of a season with index `seasonIndex`. */
  predicate EpisodesNumbered(order: seq<Item>, seasonIndex: int)
    reads order
  {
    NumbersOf(order) == EpisodeNumbering(PremiereDates(order), seasonIndex)
  }

  /**
   * The state the pass leaves one season in: numbered `sindex`, with its
   * episodes in date order in `eps` and numbered for that index.
   */
  ghost predicate SeasonIndexed(items: seq<Item>, season: Item, eps: seq<Item>, sindex: int)
    reads season, eps
  {
    && season.indexNumber == Some(sindex)
    && (forall e :: e in eps ==> e.kind == EpisodeItem && e.parent == season)
    && IsEpisodeOrder(items, season, eps)
    && EpisodesNumbered(eps, sindex)
  }

  /**
   * The state the pass leaves a managed show in: its seasons in name order
   * numbered 1..k, and the episodes of the k-th season in date order and
   * numbered for index k.
   */
  ghost predicate ShowIndexed(items: seq<Item>, show: Item, o: ShowOrder)
    reads o.seasons, Flatten(o.episodes)
  {
    && IsSortedPermutation(o.seasons, SeasonsOf(items, show), SeasonLe)
    && |o.episodes| == |o.seasons|
    && (forall k :: 0 <= k < |o.seasons| ==> SeasonIndexed(items, o.seasons[k], o.episodes[k], k + 1))
  }

  /**
   * One season: write its number, then sort its episodes by date and
   * number them.
   */
  method IndexSeason(items: seq<Item>, season: Item, sindex: int) returns (ghost eps: seq<Item>)
    requires Distinct(items) && season.kind == SeasonItem
    modifies {season}, set x | x in items && x.kind == EpisodeItem && x.parent == season
    ensures season.parentIndexNumber == old(season.parentIndexNumber)
    ensures SeasonIndexed(items, season, eps, sindex)
  {
    season.indexNumber := Some(sindex);
    var episodes := EpisodesOf(items, season);
    EpisodeLeTotal(episodes);
    episodes := SortBy(episodes, EpisodeLe);
    PermutationKeepsDistinct(episodes, EpisodesOf(items, season));
    IndexEpisodes(episodes, sindex);
    eps := episodes;
  }

  /**
   * The seasons of one show, in the order given: the k-th is numbered k + 1
   * and its episodes are indexed for that number.
   */
  method IndexSeasons(items: seq<Item>, show: Item, seasons: seq<Item>) returns (ghost episodes: seq<seq<Item>>)
    requires Distinct(items) && Distinct(seasons)
    requires forall s :: s in seasons ==> s in items && s.kind == SeasonItem && s.parent == show
    modifies set x | x in items && ShowOf(items, x) == show
    ensures |episodes| == |seasons|
    ensures forall k :: 0 <= k < |seasons| ==> SeasonIndexed(items, seasons[k], episodes[k], k + 1)
    ensures forall x :: x in items && x.kind == SeasonItem ==> x.parentIndexNumber == old(x.parentIndexNumber)
  {
    episodes := [];
    var sindex := 1;
    var k := 0;
    while k < |seasons|
      invariant 0 <= k <= |seasons| && sindex == k + 1 && |episodes| == k
      invariant forall j :: 0 <= j < k ==> SeasonIndexed(items, seasons[j], episodes[j], j + 1)
      invariant forall x :: x in items && x.kind == SeasonItem ==> x.parentIndexNumber == old(x.parentIndexNumber)
    {
      var season := seasons[k];
      label before:
      ghost var eps := IndexSeason(items, season, sindex);
      forall j | 0 <= j < k ensures SeasonIndexed(items, seasons[j], episodes[j], j + 1) {
        assert seasons[j] != season;
        assert old@before(SeasonIndexed(items, seasons[j], episodes[j], j + 1));
      }
      episodes := episodes + [eps];
      sindex := sindex + 1;
      k := k + 1;
    }
  }

  /**
   * One managed show: sort its seasons by name, then number them from 1,
   * indexing each season's episodes on the way.
   */
  method IndexShow(items: seq<Item>, show: Item) returns (ghost order: ShowOrder)
    requires Distinct(items)
    modifies set x | x in items && ShowOf(items, x) == show
    ensures ShowIndexed(items, show, order)
    ensures forall x :: x in items && x.kind == SeasonItem ==> x.parentIndexNumber == old(x.parentIndexNumber)
  {
    var seasons := SeasonsOf(items, show);
    SeasonLeTotal(seasons);
    seasons := SortBy(seasons, SeasonLe);
    PermutationKeepsDistinct(seasons, SeasonsOf(items, show));
    ghost var episodes := IndexSeasons(items, show, seasons);
    order := ShowOrder(seasons, episodes);
  }

  /**
   * Everything a show's indexed state depends on belongs to that show: its
   * seasons and their episodes are renumbered with it and with no other show.
   */
  lemma ShowIndexedFootprint(items: seq<Item>, show: Item, o: ShowOrder)
    requires ShowIndexed(items, show, o)
    ensures forall x :: x in o.seasons ==> x in items && ShowOf(items, x) == show
    ensures forall x :: x in Flatten(o.episodes) ==> ShowOf(items, x) == show
  {
    forall x | x in o.seasons ensures x in items && ShowOf(items, x) == show {
      assert x in multiset(o.seasons);
    }
    forall x | x in Flatten(o.episodes) ensures ShowOf(items, x) == show {
      var k :| 0 <= k < |o.episodes| && x in o.episodes[k];
      var season := o.seasons[k];
      assert SeasonIndexed(items, season, o.episodes[k], k + 1);
      assert season in multiset(o.seasons);
      assert season in SeasonsOf(items, show);
    }
  }

  /** Indexing one more show leaves the shows indexed before it as they were. */
  method IndexNextShow(items: seq<Item>, show: Item, ghost orders: map<Item, ShowOrder>) returns (ghost order: ShowOrder)
    requires Distinct(items) && show !in orders
    requires forall sh :: sh in orders ==> ShowIndexed(items, sh, orders[sh])
    modifies set x | x in items
    ensures ShowIndexed(items, show, order)
    ensures forall sh :: sh in orders ==> ShowIndexed(items, sh, orders[sh])
    ensures forall x :: x in items && ShowOf(items, x) != show ==>
      x.indexNumber == old(x.indexNumber) && x.parentIndexNumber == old(x.parentIndexNumber)
    ensures forall x :: x in items && x.kind == SeasonItem ==> x.parentIndexNumber == old(x.parentIndexNumber)
  {
    forall sh | sh in orders
      ensures forall x :: x in orders[sh].seasons || x in Flatten(orders[sh].episodes) ==> ShowOf(items, x) != show
    {
      ShowIndexedFootprint(items, sh, orders[sh]);
    }
    label before:
    order := IndexShow(items, show);
    forall sh | sh in orders ensures ShowIndexed(items, sh, orders[sh]) {
      assert old@before(ShowIndexed(items, sh, orders[sh]));
    }
  }

  /** The numbers an item carries. */
  function NumberingOf(x: Item): Numbering
    reads x
  {
    Numbering(x.indexNumber, x.parentIndexNumber)
  }

  /**
   * The state of the pass once the shows in `done` have been visited: the
   * managed ones among them are indexed, and everything else still has the
   * numbers recorded in `start`, except that a season's season number is
   * never changed.
   */
  ghost predicate Progress(items: seq<Item>, done: set<Item>, orders: map<Item, ShowOrder>, start: map<Item, Numbering>)
    reads *
  {
    && (forall sh :: sh in orders ==> sh in done)
    && (forall sh :: sh in done && IsManaged(sh) ==> sh in orders)
    && (forall sh :: sh in orders ==> ShowIndexed(items, sh, orders[sh]))
    && (forall x :: x in items ==> x in start)
    && (forall x {:trigger NumberingOf(x)} :: x in items && !(ShowOf(items, x) in done && IsManaged(ShowOf(items, x))) ==>
          NumberingOf(x) == start[x])
    && (forall x {:trigger NumberingOf(x)} :: x in items && x.kind == SeasonItem ==>
          NumberingOf(x).parentIndexNumber == start[x].parentIndexNumber)
  }

  /**
   * The loop body for a show not yet visited: a show the plugin does not
   * manage is skipped; a managed one is indexed and its order recorded.
   */
  method VisitShow(items: seq<Item>, show: Item, ghost done: set<Item>, ghost orders: map<Item, ShowOrder>, ghost start: map<Item, Numbering>)
    returns (ghost orders': map<Item, ShowOrder>)
    requires Distinct(items) && show !in done
    requires Progress(items, done, orders, start)
    modifies set x | x in items
    ensures Progress(items, done + {show}, orders', start)
  {
    if !IsManaged(show) {
      SkipShow(items, show, done, orders, start);
      return orders;
    }
    ghost var order := IndexNextShow(items, show, orders);
    orders' := orders[show := order];
    forall x | x in items && !(ShowOf(items, x) in done + {show} && IsManaged(ShowOf(items, x)))
      ensures NumberingOf(x) == start[x]
    {
      assert old(NumberingOf(x)) == start[x];
    }
    forall x | x in items && x.kind == SeasonItem ensures NumberingOf(x).parentIndexNumber == start[x].parentIndexNumber {
      assert old(NumberingOf(x)).parentIndexNumber == start[x].parentIndexNumber;
    }
  }

  /** Visiting an unmanaged show keeps the pass's state. */
  lemma SkipShow(items: seq<Item>, show: Item, done: set<Item>, orders: map<Item, ShowOrder>, start: map<Item, Numbering>)
    requires !IsManaged(show)
    requires Progress(items, done, orders, start)
    ensures Progress(items, done + {show}, orders, start)
  {
  }

  /** Before the first show, nothing is indexed and every item has its recorded numbers. */
  lemma ProgressStart(items: seq<Item>, start: map<Item, Numbering>)
    requires forall x :: x in items ==> x in start && start[x] == NumberingOf(x)
    ensures Progress(items, {}, map[], start)
  {
  }

  /** Once every show has been visited, every managed show is indexed and every untouched item is as it was. */
  lemma ProgressComplete(items: seq<Item>, orders: map<Item, ShowOrder>, start: map<Item, Numbering>)
    requires Progress(items, Elements(Shows(items)), orders, start)
    ensures forall sh :: sh in items && IsShow(sh) && IsManaged(sh) ==> sh in orders && ShowIndexed(items, sh, orders[sh])
    ensures forall x :: x in items && !Touched(items, x) ==> NumberingOf(x) == start[x]
    ensures forall x :: x in items && x.kind == SeasonItem ==> x.parentIndexNumber == start[x].parentIndexNumber
  {
    forall x | x in items && !Touched(items, x) ensures NumberingOf(x) == start[x] {
    }
    forall x | x in items && x.kind == SeasonItem ensures x.parentIndexNumber == start[x].parentIndexNumber {
      assert NumberingOf(x).parentIndexNumber == start[x].parentIndexNumber;
    }
  }

  /** The set of elements of a sequence. */
  function Elements(s: seq<Item>): (r: set<Item>)
    ensures forall x :: x in r ==> x in s
    ensures forall x :: x in s ==> x in r
  {
    set x | x in s
  }

  /** The next show of a sequence without repeats is new, and joins the visited ones. */
  lemma VisitNext(shows: seq<Item>, i: int)
    requires Distinct(shows) && 0 <= i < |shows|
    ensures shows[i] !in Elements(shows[..i])
    ensures Elements(shows[..i + 1]) == Elements(shows[..i]) + {shows[i]}
  {
    TakeNext(shows, i);
  }

  /**
   * The loop over the shows: each managed show is indexed in turn and
   * counted; unmanaged shows are skipped.
   */
  method IndexShows(items: seq<Item>, shows: seq<Item>, ghost start: map<Item, Numbering>)
    returns (count: nat, ghost orders: map<Item, ShowOrder>, ghost done: set<Item>)
    requires Distinct(items) && Distinct(shows)
    requires Progress(items, {}, map[], start)
    modifies set x | x in items
    ensures count == |Filter(shows, IsManaged)|
    ensures done == Elements(shows)
    ensures Progress(items, done, orders, start)
  {
    count := 0;
    orders := map[];
    done := {};
    var i := 0;
    while i < |shows|
      invariant 0 <= i <= |shows|
      invariant count == |Filter(shows[..i], IsManaged)|
      invariant done == Elements(shows[..i])
      invariant Progress(items, done, orders, start)
    {
      var show := shows[i];
      FilterTake(shows, i, IsManaged);
      VisitNext(shows, i);
      orders := VisitShow(items, show, done, orders, start);
      if IsManaged(show) {
        count := count + 1;
      }
      done := done + {show};
      i := i + 1;
    }
    TakeAll(shows);
  }

  /**
   * The whole pass: every managed show of the library is indexed, one after
   * the other, and the number of shows indexed is returned. Items outside
   * managed shows keep their numbers, and no season's season number changes.
   */
  method Run(items: seq<Item>) returns (count: nat, ghost orders: map<Item, ShowOrder>)
    requires Distinct(items)
    modifies set x | x in items
    ensures count == |Filter(Shows(items), IsManaged)|
    ensures forall sh :: sh in items && IsShow(sh) && IsManaged(sh) ==> sh in orders && ShowIndexed(items, sh, orders[sh])
    ensures forall x :: x in items && !Touched(items, x) ==>
      x.indexNumber == old(x.indexNumber) && x.parentIndexNumber == old(x.parentIndexNumber)
    ensures forall x :: x in items && x.kind == SeasonItem ==> x.parentIndexNumber == old(x.parentIndexNumber)
  {
    ghost var start := map x | x in items :: NumberingOf(x);
    var shows := Shows(items);
    ProgressStart(items, start);
    ghost var done;
    count, orders, done := IndexShows(items, shows, start);
    ProgressComplete(items, orders, start);
    forall x | x in items ensures old(NumberingOf(x)) == start[x] {
    }
  }
}
