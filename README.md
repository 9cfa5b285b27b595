# YouTube metadata plugin for Jellyfin: a Dafny model of its core

This project models the logic of the Jellyfin plugin that names and numbers
YouTube downloads. It covers four parts:

- **Identifiers in paths.** A video id is an 11-character token and a channel id a
  24-character token. Each is drawn from `[a-zA-Z0-9_-]` and stands directly between
  `[` and `]` in a file path. A search returns the leftmost match (module `YoutubeIds`).
- **The sidecar locator and the change check of the local providers.**
  - A media path's `.info.json` sidecar is, in order: `<dir>/<stem>.info.json` when that
    file exists; else the only `*.info.json` file of the directory; else the missing
    specific file (module `LocalProvider`).
  - The change check asks whether that file exists and was written after the item was
    last saved.
  - The series provider searches the series folder for the first `.info.json` whose path
    carries a bracketed channel id. It has its own change check (module `SeriesProvider`).
- **The mapping from a sidecar record to a media record.** This covers episode, movie,
  music video and series, with `upload_date` read in the `yyyyMMdd` layout (modules
  `Dates`, `Records`). It also covers the remote episode lookup by video id in the
  server's cache (module `RemoteEpisode`), as the provider tests pin it down.
- **The episode indexer.** This is a scheduled pass over the library. For every series
  whose provider ids carry the plugin's key:
  - It sorts the seasons by name and numbers them 1..k.
  - For each season, it sorts the episodes by premiere date.
  - If every episode has a date, each gets `month*1000 + day*10 + offset`, with the
    premiere year as season number. The offset counts earlier episodes with exactly the
    same date.
  - Otherwise the episodes get 1..n, with the season's number as season number.

  Module `EpisodeIndexer` holds this pass. Library items are objects of class `Item`, and
  the pass writes their two number fields in place. `Run` returns the number of series
  indexed. As ghost output, it also returns the season and episode orders it chose.

Supporting modules:

- `Wrappers`: the option type.
- `Strings`: suffix test and ordinal comparison.
- `Sorting`: the sort, as a sorted permutation.
- `Paths`: directory name, file name, stem, change extension, combine.
- `FileSystem`: a snapshot of the file system: path to existence, directory flag and
  last-write time, plus a listing per directory.

The code and the design notes differ in four places. The model follows the code:

- **No provider-id gate on the change check.** The design notes say the check is true only
  for items that already carry the provider id. The code of the shared local provider
  does not look at provider ids (`LocalProvider.HasChanged`).
- **Series check direction.** The design notes ask for a sidecar written strictly after
  the last save. The series provider checks strictly before, and checks a different file
  (see Findings).
- **Progress counts managed shows only.** The design notes report progress as completed
  shows over all shows. The code counts only managed shows and divides by all shows.
  The model returns that count.
- **Person provider ids.** The design notes say a person's provider id mirrors the
  record's id. The provider tests expect the record's channel id instead, and the model
  follows the tests.

## Model

| member | source | states |
|---|---|---|
| YoutubeIds.FindMatch | Jellyfin.Plugin.YoutubeMetadata/Constants.cs:13-17 | the position found is a match of the bracketed pattern and no earlier position matches; nothing is found exactly when no position matches |
| YoutubeIds.Extract | Jellyfin.Plugin.YoutubeMetadata/Constants.cs:13-17 | an extracted id has exactly the pattern's length and only characters of `[a-zA-Z0-9_-]`; it stands in the path between `[` and `]` at a position before which no match starts, so of several bracketed ids the leftmost is returned; nothing is extracted exactly when nothing matches |
| YoutubeIds.IgnoreCaseSameClass | Jellyfin.Plugin.YoutubeMetadata/Constants.cs:13 | ignoring case admits exactly the characters of the id alphabet |
| YoutubeIds.IgnoreCaseSameMatches | Jellyfin.Plugin.YoutubeMetadata/Constants.cs:13 | the case-insensitive search returns the same position as the case-sensitive one, on every string |
| YoutubeIds.ChannelIgnoreCaseIsChannelMatch | Jellyfin.Plugin.YoutubeMetadata/Providers/LocalMetadata/YoutubeLocalSeriesProvider.cs:28-30 | the series provider's IgnoreCase channel pattern matches a path exactly when a channel id can be extracted from it |
| YoutubeIds.NoBracketNoId | Jellyfin.Plugin.YoutubeMetadata/Constants.cs:13-14 | a path without `[` yields no id of any length, so a parenthesised id is not found |
| YoutubeIds.BracketedTokenIsExtracted | Jellyfin.Plugin.YoutubeMetadata/Constants.cs:13-17 | a bracketed token of id characters with no `[` before it is exactly what the search of its own length returns |
| YoutubeIds.OtherLengthTokenNoMatch | Jellyfin.Plugin.YoutubeMetadata/Constants.cs:13-14 | no match of another length starts anywhere within a bracketed token of id characters |
| YoutubeIds.ChannelTokenHasNoVideoId | Jellyfin.Plugin.YoutubeMetadata/Constants.cs:13-14 | a path whose only bracketed token is a 24-character channel id yields no 11-character video id |
| YoutubeIds.TestPathWithId | Jellyfin.Plugin.YoutubeMetadata.Providers.Tests/ProviderTests.cs:62 | the test path `/Something [AAAAAAAAAAA].mkv` yields the video id `AAAAAAAAAAA` |
| YoutubeIds.TestPathsWithoutId | Jellyfin.Plugin.YoutubeMetadata.Providers.Tests/ProviderTests.cs:76-78 | the two rejected test paths yield no video id |
| Paths.CombineName | Jellyfin.Plugin.YoutubeMetadata/Providers/LocalMetadata/AbstractYoutubeLocalProvider.cs:34 | combining a directory with a separator-free name gives a path whose file name is that name and which lies directly in that directory |
| Paths.SplitJoin | Jellyfin.Plugin.YoutubeMetadata/Providers/LocalMetadata/AbstractYoutubeLocalProvider.cs:29 | the directory name and file name of `dir/name` are `dir` and `name` |
| Paths.ChangeExtensionOfJoin | Jellyfin.Plugin.YoutubeMetadata/Providers/LocalMetadata/AbstractYoutubeLocalProvider.cs:78 | changing the extension of `dir/name` keeps the directory and the name's stem and appends `.ext` |
| Paths.ChangeExtensionIsSibling | Jellyfin.Plugin.YoutubeMetadata/Providers/LocalMetadata/AbstractYoutubeLocalProvider.cs:78 | the path with a changed extension is the sibling `stem.ext` combined with the same directory |
| FileSystem.GetFileSystemInfo | Jellyfin.Plugin.YoutubeMetadata/Providers/LocalMetadata/AbstractYoutubeLocalProvider.cs:28 | the entry exists exactly when the snapshot holds the path, and is a directory exactly when the snapshot says so |
| FileSystem.GetFileInfo | Jellyfin.Plugin.YoutubeMetadata/Providers/LocalMetadata/AbstractYoutubeLocalProvider.cs:36 | a file handle for the path, present exactly when a non-directory is there, carrying its last-write time |
| FileSystem.GetFiles | Jellyfin.Plugin.YoutubeMetadata/Providers/LocalMetadata/AbstractYoutubeLocalProvider.cs:32 | the directory's listed files in listing order, one file handle each; an unlisted directory gives none |
| LocalProvider.SearchDirectory | Jellyfin.Plugin.YoutubeMetadata/Providers/LocalMetadata/AbstractYoutubeLocalProvider.cs:28-30 | the path itself when it is a directory, its parent directory otherwise |
| LocalProvider.InfoFiles | Jellyfin.Plugin.YoutubeMetadata/Providers/LocalMetadata/AbstractYoutubeLocalProvider.cs:43 | exactly the listed files whose name ends in `.info.json` |
| LocalProvider.NoInfoFiles | Jellyfin.Plugin.YoutubeMetadata/Providers/LocalMetadata/AbstractYoutubeLocalProvider.cs:43 | a listing with no file ending in `.info.json` gives no candidates |
| LocalProvider.SingleInfoFile | Jellyfin.Plugin.YoutubeMetadata/Providers/LocalMetadata/AbstractYoutubeLocalProvider.cs:43 | when exactly one listed file ends in `.info.json`, the candidates are that file alone |
| LocalProvider.TwoInfoFiles | Jellyfin.Plugin.YoutubeMetadata/Providers/LocalMetadata/AbstractYoutubeLocalProvider.cs:43 | two listed files ending in `.info.json` give at least two candidates |
| LocalProvider.LocatedByListing | Jellyfin.Plugin.YoutubeMetadata/Providers/LocalMetadata/AbstractYoutubeLocalProvider.cs:38-51 | with the specific file missing, the only `.info.json` file of the listing is returned, and with two of them the missing specific file is returned |
| LocalProvider.GetInfoJson | Jellyfin.Plugin.YoutubeMetadata/Providers/LocalMetadata/AbstractYoutubeLocalProvider.cs:26-52 | the specific `<dir>/<stem>.info.json` when it exists, even beside other sidecars; else the single candidate when there is exactly one; else the missing specific file |
| LocalProvider.LocatedInSearchDirectory | Jellyfin.Plugin.YoutubeMetadata/Providers/LocalMetadata/AbstractYoutubeLocalProvider.cs:32-51 | in a well-formed snapshot the located file lies directly in the search directory |
| LocalProvider.CandidateInSearchDirectory | Jellyfin.Plugin.YoutubeMetadata/Providers/LocalMetadata/AbstractYoutubeLocalProvider.cs:43-47 | every sidecar candidate of a directory lies in that directory |
| LocalProvider.SpecificIsNamedSidecar | Jellyfin.Plugin.YoutubeMetadata/Providers/LocalMetadata/AbstractYoutubeLocalProvider.cs:34 | the specific file is named `<stem>.info.json` |
| LocalProvider.LocatedIsSidecar | Jellyfin.Plugin.YoutubeMetadata/Providers/LocalMetadata/AbstractYoutubeLocalProvider.cs:34-51 | a located file that exists is a file whose name ends in `.info.json` |
| LocalProvider.LocatedIsFileInfo | Jellyfin.Plugin.YoutubeMetadata/Providers/LocalMetadata/AbstractYoutubeLocalProvider.cs:36-47 | the located handle is what the file-info query reports for its own path, whichever rule chose it |
| LocalProvider.HasChanged | Jellyfin.Plugin.YoutubeMetadata/Providers/LocalMetadata/AbstractYoutubeLocalProvider.cs:60-65 | changed exactly when the located file exists as a file and was written strictly after the last save |
| LocalProvider.GetMetadata | Jellyfin.Plugin.YoutubeMetadata/Providers/LocalMetadata/AbstractYoutubeLocalProvider.cs:74-91 | the empty result when the sibling `ChangeExtension(path, "info.json")` is missing or reads as null; otherwise the kind's mapping of its record |
| LocalProvider.SiblingIsSpecificFile | Jellyfin.Plugin.YoutubeMetadata/Providers/LocalMetadata/AbstractYoutubeLocalProvider.cs:78 | for a media file, the sibling read for metadata is the same file the locator tries first |
| SeriesProvider.GlobInfoJson | Jellyfin.Plugin.YoutubeMetadata/Providers/LocalMetadata/YoutubeLocalSeriesProvider.cs:26-27 | exactly the enumerated files whose name ends in `.info.json`, compared ignoring case as the glob matcher does |
| SeriesProvider.GlobKeepsOrder | Jellyfin.Plugin.YoutubeMetadata/Providers/LocalMetadata/YoutubeLocalSeriesProvider.cs:26-33 | the glob keeps enumeration order: searching its output for a channel match finds the first enumerated file that is both a `.info.json` file and a channel match |
| SeriesProvider.UpperCaseSidecarFound | Jellyfin.Plugin.YoutubeMetadata/Providers/LocalMetadata/YoutubeLocalSeriesProvider.cs:26-31 | a sidecar spelled `.INFO.JSON` whose path carries a bracketed channel id is globbed and chosen as the series sidecar |
| SeriesProvider.FirstWhereIsLeftmost | Jellyfin.Plugin.YoutubeMetadata/Providers/LocalMetadata/YoutubeLocalSeriesProvider.cs:29-34 | the element found satisfies the test and no earlier one does; nothing is found exactly when no element satisfies it |
| SeriesProvider.GetSeriesInfo | Jellyfin.Plugin.YoutubeMetadata/Providers/LocalMetadata/YoutubeLocalSeriesProvider.cs:25-35 | the linear search returns the first file, in enumeration order, that ends in `.info.json` (ignoring case) and matches the channel pattern; none is returned exactly when no such sidecar carries a channel id |
| SeriesProvider.SeriesInfoProperties | Jellyfin.Plugin.YoutubeMetadata/Providers/LocalMetadata/YoutubeLocalSeriesProvider.cs:25-35 | the series sidecar found is the first enumerated file that ends in `.info.json` (ignoring case) and carries a channel id; none is found exactly when no sidecar does |
| SeriesProvider.SeriesInfoJson | Jellyfin.Plugin.YoutubeMetadata/Providers/LocalMetadata/YoutubeLocalSeriesProvider.cs:46-53 | only `<dir>/<stem>.info.json` is checked, with no directory fallback |
| SeriesProvider.SidecarStem | Jellyfin.Plugin.YoutubeMetadata/Providers/LocalMetadata/YoutubeLocalSeriesProvider.cs:48-50 | the directory of `dir/X.info.json` is `dir` and its stem is `X.info` |
| SeriesProvider.SeriesInfoJsonDoublesSuffix | Jellyfin.Plugin.YoutubeMetadata/Providers/LocalMetadata/YoutubeLocalSeriesProvider.cs:58 | applied to the sidecar `dir/X.info.json`, the file checked is `dir/X.info.info.json` |
| SeriesProvider.HasChanged | Jellyfin.Plugin.YoutubeMetadata/Providers/LocalMetadata/YoutubeLocalSeriesProvider.cs:54-63 | agrees with the check as written: false when no series sidecar is found; true only when `<stem>.info.json` beside the found sidecar exists and was written strictly before the last save |
| SeriesProvider.RewrittenSidecarMissedAsWritten | Jellyfin.Plugin.YoutubeMetadata/Providers/LocalMetadata/YoutubeLocalSeriesProvider.cs:58-59 | a series sidecar rewritten after the last save goes unnoticed by the check as written, while the corrected check reports it |
| SeriesProvider.RewrittenSidecarNoticed | Jellyfin.Plugin.YoutubeMetadata/Providers/LocalMetadata/YoutubeLocalSeriesProvider.cs:59 | the corrected check reports every sidecar rewritten after the last save |
| SeriesProvider.UntouchedSidecarUnchanged | Jellyfin.Plugin.YoutubeMetadata/Providers/LocalMetadata/YoutubeLocalSeriesProvider.cs:59 | the corrected check never reports a sidecar not written since the last save |
| SeriesProvider.GetMetadata | Jellyfin.Plugin.YoutubeMetadata/Providers/LocalMetadata/YoutubeLocalSeriesProvider.cs:36-45 | the empty result when no series sidecar is found; metadata exactly when the sidecar found has a record, and then it is that record mapped as a series |
| Dates.Compare | Jellyfin.Plugin.YoutubeMetadata/EpisodeIndexer.cs:115 | -1, 0 or 1, and 0 exactly for equal instants |
| Dates.CompareIsTotalOrder | Jellyfin.Plugin.YoutubeMetadata/EpisodeIndexer.cs:115 | swapping the operands flips the sign, and "no later than" is transitive |
| Dates.ParseYyyyMmDd | Jellyfin.Plugin.YoutubeMetadata.Providers.Tests/ProviderTests.cs:70 | parses exactly the eight-digit strings naming a real date, to midnight of that date, with the first four digits as year |
| Dates.ParseFormatRoundTrip | Jellyfin.Plugin.YoutubeMetadata.Providers.Tests/ProviderTests.cs:70 | every valid date at midnight survives formatting then parsing |
| Dates.FormatParseRoundTrip | Jellyfin.Plugin.YoutubeMetadata.Providers.Tests/ProviderTests.cs:70 | every string that parses is the formatted form of its date |
| Strings.CompareOrdinalZero | Jellyfin.Plugin.YoutubeMetadata/EpisodeIndexer.cs:88 | two names compare equal exactly when they are the same string |
| Strings.CompareOrdinalAntisymmetric | Jellyfin.Plugin.YoutubeMetadata/EpisodeIndexer.cs:88 | swapping the names flips the sign |
| Strings.CompareOrdinalTransitive | Jellyfin.Plugin.YoutubeMetadata/EpisodeIndexer.cs:88 | "sorts no later than" is transitive |
| Records.UploadDateMapping | Jellyfin.Plugin.YoutubeMetadata.Providers.Tests/ProviderTests.cs:109-110 | with a valid `upload_date`, the year is its first four digits and the date formats back to it; otherwise neither is set |
| Records.JsonToEpisode | Jellyfin.Plugin.YoutubeMetadata.Providers.Tests/ProviderTests.cs:106-113 | has metadata; name and overview are the title and description; dates from `upload_date`; numbers 1 and 1; the id under the plugin key; the uploader as the one director |
| Records.JsonToMovie | Jellyfin.Plugin.YoutubeMetadata.Providers.Tests/ProviderTests.cs:198-218 | has metadata; title, description and dates; exactly two people, director then actor, both the uploader with the channel id under the plugin key |
| Records.JsonToMusicVideo | Jellyfin.Plugin.YoutubeMetadata.Providers.Tests/ProviderTests.cs:119-146 | has metadata; a present non-empty title is the name; album, the artist as the one artist, overview and dates; the uploader as the one director |
| Records.JsonToSeries | Jellyfin.Plugin.YoutubeMetadata/Providers/LocalMetadata/YoutubeLocalSeriesProvider.cs:43 | has metadata; title and description; the channel id under the plugin key; the uploader as director |
| Records.ParsesDec15 | Jellyfin.Plugin.YoutubeMetadata.Providers.Tests/ProviderTests.cs:70 | `20211215` parses to 15 December 2021 |
| Records.EpisodeTestVector | Jellyfin.Plugin.YoutubeMetadata.Providers.Tests/ProviderTests.cs:106-113 | the episode test's expected name, overview, year, date, numbers and first person |
| Records.MusicVideoTestVector | Jellyfin.Plugin.YoutubeMetadata.Providers.Tests/ProviderTests.cs:119-146 | the first music-video test's whole expected result |
| Records.MovieTestVector | Jellyfin.Plugin.YoutubeMetadata.Providers.Tests/ProviderTests.cs:189-219 | the movie test's whole expected result, director before actor |
| RemoteEpisode.GetMetadata | Jellyfin.Plugin.YoutubeMetadata.Providers.Tests/ProviderTests.cs:60-85 | no video id gives the empty result; metadata exactly when the cached sidecar of the id exists and has a record, and then it is that record mapped as an episode with that id |
| RemoteEpisode.VideoInfoPathShape | Jellyfin.Plugin.YoutubeMetadata.Providers.Tests/ProviderTests.cs:60-61 | the cached sidecar of id X is `<cache>/youtubemetadata/X/ytvideo.info.json` |
| RemoteEpisode.VideoIdHasNoSep | Jellyfin.Plugin.YoutubeMetadata/Constants.cs:14 | an extracted video id has 11 characters and no separator |
| RemoteEpisode.CachedResultsTestVector | Jellyfin.Plugin.YoutubeMetadata.Providers.Tests/ProviderTests.cs:41-74 | the cached-results test: the record cached for `AAAAAAAAAAA` yields the expected episode fields |
| RemoteEpisode.InvalidIdTestVectors | Jellyfin.Plugin.YoutubeMetadata.Providers.Tests/ProviderTests.cs:76-85 | both invalid-id test paths yield no metadata, whatever the cache holds |
| Sorting.SortBy | Jellyfin.Plugin.YoutubeMetadata/EpisodeIndexer.cs:75-89 | the result is a permutation of the input sorted by the comparison |
| EpisodeIndexer.Filter | Jellyfin.Plugin.YoutubeMetadata/EpisodeIndexer.cs:55-59 | exactly the elements that pass the query's test |
| EpisodeIndexer.Shows | Jellyfin.Plugin.YoutubeMetadata/EpisodeIndexer.cs:55-59 | exactly the series of the library, without repeats |
| EpisodeIndexer.SeasonsOf | Jellyfin.Plugin.YoutubeMetadata/EpisodeIndexer.cs:69-73 | exactly the seasons whose parent is the show, without repeats |
| EpisodeIndexer.EpisodesOf | Jellyfin.Plugin.YoutubeMetadata/EpisodeIndexer.cs:95-99 | exactly the episodes whose parent is the season, without repeats |
| EpisodeIndexer.CompareNames | Jellyfin.Plugin.YoutubeMetadata/EpisodeIndexer.cs:75-89 | -1, 0 or 1, and 0 exactly for equal optional names |
| EpisodeIndexer.CompareDates | Jellyfin.Plugin.YoutubeMetadata/EpisodeIndexer.cs:100-116 | -1, 0 or 1, and 0 exactly for equal optional dates |
| EpisodeIndexer.CompareNamesIsTotalPreorder | Jellyfin.Plugin.YoutubeMetadata/EpisodeIndexer.cs:75-89 | the season comparison is antisymmetric in sign and transitive |
| EpisodeIndexer.CompareDatesIsTotalPreorder | Jellyfin.Plugin.YoutubeMetadata/EpisodeIndexer.cs:100-116 | the episode comparison is antisymmetric in sign and transitive |
| EpisodeIndexer.SeasonLeTotal | Jellyfin.Plugin.YoutubeMetadata/EpisodeIndexer.cs:75-89 | the season order is a total preorder on any list of seasons |
| EpisodeIndexer.EpisodeLeTotal | Jellyfin.Plugin.YoutubeMetadata/EpisodeIndexer.cs:100-116 | the episode order is a total preorder on any list of episodes |
| EpisodeIndexer.UnnamedSeasonsFirst | Jellyfin.Plugin.YoutubeMetadata/EpisodeIndexer.cs:76-88 | in season order the unnamed seasons come first and named ones follow in name order |
| EpisodeIndexer.UndatedEpisodesFirst | Jellyfin.Plugin.YoutubeMetadata/EpisodeIndexer.cs:101-115 | in episode order the undated episodes come first and dated ones follow in date order |
| EpisodeIndexer.OffsetIsRunLength | Jellyfin.Plugin.YoutubeMetadata/EpisodeIndexer.cs:127-136 | the same-date offset is the number of earlier episodes in the run of equal dates ending here |
| EpisodeIndexer.EqualDatesAreContiguous | Jellyfin.Plugin.YoutubeMetadata/EpisodeIndexer.cs:100-116 | in date order every episode between two with equal dates has that date |
| EpisodeIndexer.EqualDatesOffsetsAscend | Jellyfin.Plugin.YoutubeMetadata/EpisodeIndexer.cs:129-136 | in date order, episodes sharing a date get consecutive offsets |
| EpisodeIndexer.DateIndexRoundTrip | Jellyfin.Plugin.YoutubeMetadata/EpisodeIndexer.cs:138 | for a real date and an offset up to 9, the number decodes back to month, day and offset |
| EpisodeIndexer.DateIndexInjective | Jellyfin.Plugin.YoutubeMetadata/EpisodeIndexer.cs:138 | the date number is injective on (month, day, offset) while offsets stay at most 9 |
| EpisodeIndexer.SameDayDifferentTimesCollide | Jellyfin.Plugin.YoutubeMetadata/EpisodeIndexer.cs:130 | two episodes on one day at different times both get offset 0 and the same numbers |
| EpisodeIndexer.EleventhSameDateCollidesWithNextDay | Jellyfin.Plugin.YoutubeMetadata/EpisodeIndexer.cs:130-138 | the eleventh episode of a date gets the same numbers as the next day's first |
| EpisodeIndexer.DateNumbersDistinct | Jellyfin.Plugin.YoutubeMetadata/EpisodeIndexer.cs:127-141 | with offsets at most 9, episodes with the same instant or on different days get different numbers |
| EpisodeIndexer.ShouldUseDate | Jellyfin.Plugin.YoutubeMetadata/EpisodeIndexer.cs:118-124 | date mode is chosen exactly when every episode has a premiere date |
| EpisodeIndexer.NumberByDate | Jellyfin.Plugin.YoutubeMetadata/EpisodeIndexer.cs:127-145 | each episode gets `month*1000 + day*10 + offset` and its premiere year, the offset following the same-date rule |
| EpisodeIndexer.NumberSequentially | Jellyfin.Plugin.YoutubeMetadata/EpisodeIndexer.cs:146-158 | the k-th episode gets number k + 1 and the season's number |
| EpisodeIndexer.IndexEpisodes | Jellyfin.Plugin.YoutubeMetadata/EpisodeIndexer.cs:118-158 | the episodes carry exactly the numbering of their season: by date when all are dated, else 1..n with the season's number |
| EpisodeIndexer.IndexSeason | Jellyfin.Plugin.YoutubeMetadata/EpisodeIndexer.cs:92-158 | the season gets its number, keeps its season number, and its episodes are a date-sorted permutation numbered for it |
| EpisodeIndexer.IndexSeasons | Jellyfin.Plugin.YoutubeMetadata/EpisodeIndexer.cs:90-161 | the k-th season in the given order is numbered k + 1 with its episodes indexed for k + 1; no season's season number changes |
| EpisodeIndexer.IndexShow | Jellyfin.Plugin.YoutubeMetadata/EpisodeIndexer.cs:69-161 | the show's seasons are a name-sorted permutation numbered 1..k, each with its episodes indexed; no season's season number changes |
| EpisodeIndexer.ShowIndexedFootprint | Jellyfin.Plugin.YoutubeMetadata/EpisodeIndexer.cs:69-99 | an indexed show's state depends only on its own seasons and their episodes |
| EpisodeIndexer.IndexNextShow | Jellyfin.Plugin.YoutubeMetadata/EpisodeIndexer.cs:68-161 | indexing one more show leaves shows indexed earlier indexed, and changes no item of another show |
| EpisodeIndexer.VisitShow | Jellyfin.Plugin.YoutubeMetadata/EpisodeIndexer.cs:62-161 | after visiting a show it counts as done: indexed if managed, skipped otherwise, and everything outside it as before |
| EpisodeIndexer.SkipShow | Jellyfin.Plugin.YoutubeMetadata/EpisodeIndexer.cs:63-66 | skipping an unmanaged show changes nothing |
| EpisodeIndexer.ProgressStart | Jellyfin.Plugin.YoutubeMetadata/EpisodeIndexer.cs:53-61 | before the first show nothing is indexed and every item has its original numbers |
| EpisodeIndexer.ProgressComplete | Jellyfin.Plugin.YoutubeMetadata/EpisodeIndexer.cs:62-165 | once every show is visited, every managed show is indexed, untouched items keep their numbers, and seasons keep their season numbers |
| EpisodeIndexer.IndexShows | Jellyfin.Plugin.YoutubeMetadata/EpisodeIndexer.cs:61-165 | the count is the number of managed shows, and the loop leaves every show visited |
| EpisodeIndexer.Run | Jellyfin.Plugin.YoutubeMetadata/EpisodeIndexer.cs:53-167 | returns the number of managed shows; every managed show is indexed; items outside managed shows keep both numbers; no season's season number changes |

## Left out

- YTDLSeriesProvider.cs is not part of this model. It is remote search and download through an external tool, with an exception-driven fallback scan and image fetching.
- RemoteEpisode.GetMetadata: the remote episode provider's download is not modelled, and neither is its freshness check on the cache. A cached sidecar that is missing gives the empty result. A cached sidecar that exists is read as is, however old it is. The provider tests give the cached file yesterday's write time, and the series provider re-downloads a stale sidecar (YTDLSeriesProvider.cs:54, :102). A stale cache that would be fetched again is therefore read here. The episode provider's source file is not part of this model, and its behaviour is taken from the provider tests.
- The source of the record mappings (`Utils`, `YTDLEpisodeProvider`) is not part of this model. The episode, movie and music-video mappings are defined to meet what the provider tests assert. No test covers `Records.JsonToSeries`. Its fields (title, description, channel id, uploader as director) follow the design notes.
- The per-kind local providers are not part of this model. They are one-line dispatches to those mappings.
- JSON parsing is left out. A parsed sidecar is given as a map from path to record, and a path absent from the map reads as null.
- The recursive `**/*.info.json` glob is given as the list of enumerated paths.
- SeriesProvider.IsInfoJsonFile: the glob matcher's case-insensitive comparison is modelled as ASCII case folding. Unicode case equivalences are not modelled.
- Logging, async and await, cancellation tokens and the scheduled-task plumbing are left out.
- The persisting write `UpdateItemAsync` is modelled as the field write itself.
- EpisodeIndexer.Run: the progress percentage is a double sent to a sink. The model returns the integer count of managed shows indexed instead.
- EpisodeIndexer.EpisodesOf: the episode query asks for episodes with the season as an ancestor. The model takes episodes whose parent is the season.
- EpisodeIndexer.Touched: the model also requires the episode's season to be in the library. An episode whose season is not listed is never renumbered.
- Sorting.SortBy: `List.Sort` is unstable. Only "sorted and a permutation" is promised, and the order of equal elements is left open.
- Strings.CompareOrdinal: the culture-sensitive `string.CompareTo` is modelled as ordinal comparison. In the same way, the culture-sensitive `Name.EndsWith(".info.json")` of the shared local provider (AbstractYoutubeLocalProvider.cs:43) is modelled as the ordinal `Strings.EndsWith`.
- YoutubeIds.InIdClass: IgnoreCase is modelled as ASCII case folding. Unicode case equivalences of the regex engine are not modelled.
- Paths.Combine: paths use `/` as the only separator, including the tests' `\cache` cache directory. The exceptions for a rooted path without a parent are not modelled. `Combine(a, "")` gives `a/`, whereas `Path.Combine` returns `a`. No caller in the core combines with an empty name.
- FileSystem.GetFileSystemInfo: paths are taken as already normalised. The full name of a file or directory handle is the path it was asked for, so `DirectoryInfo.FullName` gives back the path it was given.
- FileSystem.GetFiles: a directory missing from the listing gives no files rather than an error.
- Records.JsonToMusicVideo: the name when the title is absent or empty is not stated in the contract. The model uses the track, but the second music-video test expects the name `Foo` from a record whose only name field is the track `FooTrack`, so no test fixes it.
- Records.JsonToEpisode: the thumbnail list is not carried into the item.
- LocalProvider.GetMetadata: a record that parses to null and a missing record are the same case.
- SeriesProvider.GetMetadata: a found series sidecar that reads as null gives the empty result. The code passes the null record straight to the series mapping (YoutubeLocalSeriesProvider.cs:42-43), and that mapping's handling of null is not part of this model.
- LocalProvider.HasChanged: the change check ignores the item's provider ids, as the code does.

## Findings

| source | as written | input that shows it | evidently intended | confidence | as-written member | corrected member |
|---|---|---|---|---|---|---|
| Jellyfin.Plugin.YoutubeMetadata/Providers/LocalMetadata/YoutubeLocalSeriesProvider.cs:58-59 | the change check re-applies GetInfoJson to the sidecar path, so for `dir/X.info.json` it checks `dir/X.info.info.json`, and it reports a change when that file was written BEFORE the last save | a series folder with `dir/X.info.json` written after the item's last save and no `dir/X.info.info.json`: the check says unchanged | report a change when the series sidecar itself was written after the last save, as the shared local provider does | not executed | SeriesProvider.RewrittenSidecarMissedAsWritten | SeriesProvider.RewrittenSidecarNoticed |
