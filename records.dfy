/**
 * The sidecar record the downloader writes (every field optional) and the
 * media records built from it: episode, movie, music video and series, each
 * with the people derived from the uploader.
 */
module Records {
  import opened Wrappers
  import opened Dates
  import opened YoutubeIds

  datatype Thumbnail = Thumbnail(url: Option<string>, width: int, height: int, resolution: Option<string>, id: Option<string>)

  /** The downloader's `.info.json` object; a field the file leaves out is None. */
  datatype SidecarRecord = SidecarRecord(
    id: Option<string>,
    uploaderId: Option<string>,
    uploader: Option<string>,
    uploadDate: Option<string>,
    title: Option<string>,
    description: Option<string>,
    channelId: Option<string>,
    track: Option<string>,
    artist: Option<string>,
    album: Option<string>,
    thumbnail: Option<string>,
    thumbnails: Option<seq<Thumbnail>>)

  /** A record with every field absent, to be filled in by name. */
  const Blank: SidecarRecord := SidecarRecord(None, None, None, None, None, None, None, None, None, None, None, None)

  datatype PersonKind = Director | Actor

  datatype Person = Person(name: Option<string>, kind: PersonKind, providerIds: map<string, string>)

  datatype MediaKind = Episode | Movie | MusicVideo | Series

  datatype MediaItem = MediaItem(
    kind: MediaKind,
    name: Option<string>,
    overview: Option<string>,
    productionYear: Option<int>,
    premiereDate: Option<DateTime>,
    indexNumber: Option<int>,
    parentIndexNumber: Option<int>,
    album: Option<string>,
    artists: seq<string>,
    providerIds: map<string, string>)

  datatype MetadataResult = MetadataResult(hasMetadata: bool, item: Option<MediaItem>, people: seq<Person>)

  /** A fresh result: no metadata, no item, nobody. */
  const NoMetadata: MetadataResult := MetadataResult(false, None, [])

  /** `upload_date` read in the yyyyMMdd layout; absent or malformed gives nothing. */
  function PremiereDate(json: SidecarRecord): Option<DateTime> {
    if json.uploadDate.Some? then ParseYyyyMmDd(json.uploadDate.value) else None
  }

  /** The year of the premiere date. */
  function ProductionYear(json: SidecarRecord): Option<int> {
    match PremiereDate(json)
    case None => None
    case Some(d) => Some(d.year)
  }

  /** The channel, under the plugin's provider key. */
  function ChannelIds(json: SidecarRecord): map<string, string> {
    if json.channelId.Some? then map[ProviderId := json.channelId.value] else map[]
  }

  /** The uploader as a person of the given kind, identified by channel. */
  function Uploader(json: SidecarRecord, kind: PersonKind): Person {
    Person(json.uploader, kind, ChannelIds(json))
  }

  /** Name, overview, year and date, common to every kind of item. */
  function CommonItem(kind: MediaKind, name: Option<string>, json: SidecarRecord): MediaItem {
    MediaItem(kind, name, json.description, ProductionYear(json), PremiereDate(json), None, None, None, [], map[])
  }

  /**
   * The dates of a mapped item agree with `upload_date`: when it is a valid
   * yyyyMMdd string, the year is its first four digits and the date prints
   * back as that string; otherwise neither is set.
   */
  ghost predicate DatesFromUpload(item: MediaItem, json: SidecarRecord) {
    if json.uploadDate.Some? && ParseYyyyMmDd(json.uploadDate.value).Some? then
      var s := json.uploadDate.value;
      && item.productionYear == Some(DigitsValue(s[..4]))
      && item.premiereDate.Some? && Valid(item.premiereDate.value)
      && FormatYyyyMmDd(item.premiereDate.value) == s
    else
      item.productionYear.None? && item.premiereDate.None?
  }

  lemma UploadDateMapping(json: SidecarRecord, kind: MediaKind, name: Option<string>)
    ensures DatesFromUpload(CommonItem(kind, name, json), json)
  {
    if json.uploadDate.Some? && ParseYyyyMmDd(json.uploadDate.value).Some? {
      FormatParseRoundTrip(json.uploadDate.value);
    }
  }

  /**
   * An episode: the title and description, the upload date, placeholder
   * season and episode numbers 1 and 1 (the indexer assigns the real ones),
   * the supplied video id, and the uploader as its one director.
   */
  function JsonToEpisode(json: SidecarRecord, id: string): (r: MetadataResult)
    ensures r.hasMetadata && r.item.Some?
    ensures r.item.value.kind == Episode
    ensures r.item.value.name == json.title && r.item.value.overview == json.description
    ensures DatesFromUpload(r.item.value, json)
    ensures r.item.value.indexNumber == Some(1) && r.item.value.parentIndexNumber == Some(1)
    ensures r.item.value.providerIds == map[ProviderId := id]
    ensures r.people == [Person(json.uploader, Director, ChannelIds(json))]
  {
    UploadDateMapping(json, Episode, json.title);
    var item := CommonItem(Episode, json.title, json);
    MetadataResult(true, Some(item.(indexNumber := Some(1), parentIndexNumber := Some(1), providerIds := map[ProviderId := id])),
                   [Uploader(json, Director)])
  }

  /**
   * A movie: title, description and upload date, and the uploader twice, as
   * director and then as actor, both identified by the record's channel.
   */
  function JsonToMovie(json: SidecarRecord, id: string): (r: MetadataResult)
    ensures r.hasMetadata && r.item.Some?
    ensures r.item.value.kind == Movie
    ensures r.item.value.name == json.title && r.item.value.overview == json.description
    ensures DatesFromUpload(r.item.value, json)
    ensures |r.people| == 2 && r.people[0].kind == Director && r.people[1].kind == Actor
    ensures forall k :: 0 <= k < 2 ==> r.people[k].name == json.uploader && r.people[k].providerIds == ChannelIds(json)
  {
    UploadDateMapping(json, Movie, json.title);
    MetadataResult(true, Some(CommonItem(Movie, json.title, json)), [Uploader(json, Director), Uploader(json, Actor)])
  }

  /** The music-video name: the title, or the track when the title is absent or empty. */
  function MusicVideoName(json: SidecarRecord): Option<string> {
    if json.title.Some? && json.title.value != "" then json.title else json.track
  }

  /**
   * A music video: its name, album, the artist as the one artist, the
   * description and upload date, and the uploader as its one director.
   */
  function JsonToMusicVideo(json: SidecarRecord, id: string): (r: MetadataResult)
    ensures r.hasMetadata && r.item.Some?
    ensures r.item.value.kind == MusicVideo
    ensures json.title.Some? && json.title.value != "" ==> r.item.value.name == json.title
    ensures r.item.value.album == json.album && r.item.value.overview == json.description
    ensures r.item.value.artists == if json.artist.Some? then [json.artist.value] else []
    ensures DatesFromUpload(r.item.value, json)
    ensures r.people == [Person(json.uploader, Director, ChannelIds(json))]
  {
    UploadDateMapping(json, MusicVideo, MusicVideoName(json));
    var item := CommonItem(MusicVideo, MusicVideoName(json), json);
    var artists := if json.artist.Some? then [json.artist.value] else [];
    MetadataResult(true, Some(item.(album := json.album, artists := artists)), [Uploader(json, Director)])
  }

  /** A series: the channel's title and description, keyed by its channel id, with the uploader as director. */
  function JsonToSeries(json: SidecarRecord): (r: MetadataResult)
    ensures r.hasMetadata && r.item.Some?
    ensures r.item.value.kind == Series
    ensures r.item.value.name == json.title && r.item.value.overview == json.description
    ensures r.item.value.providerIds == ChannelIds(json)
    ensures r.people == [Person(json.uploader, Director, ChannelIds(json))]
  {
    var item := CommonItem(Series, json.title, json);
    MetadataResult(true, Some(item.(providerIds := ChannelIds(json))), [Uploader(json, Director)])
  }

  // ----- the records the tests build and expect -----

  const CoolVideo: SidecarRecord := Blank.(uploader := Some("Someone"), uploadDate := Some("20211215"),
    title := Some("Cool Video"), description := Some("This is the best video."), channelId := Some("12345"),
    thumbnails := Some([Thumbnail(Some("https://www.something.com"), 10, 10, Some("10x10"), Some("id912az"))]))

  const FooSong: SidecarRecord := Blank.(title := Some("Foo"), album := Some("Bar"), artist := Some("Someone"),
    uploadDate := Some("20211215"), description := Some("Some music"), uploader := Some("ankenyr"), channelId := Some("abc123"))

  const FooMovie: SidecarRecord := Blank.(title := Some("Foo"), uploadDate := Some("20211215"),
    description := Some("Some movie"), uploader := Some("ankenyr"), channelId := Some("abc123"))

  const Dec15: DateTime := DateTime(2021, 12, 15, 0)

  lemma ParsesDec15()
    ensures ParseYyyyMmDd("20211215") == Some(Dec15)
  {
    ParseFormatRoundTrip(Dec15);
    assert FormatYyyyMmDd(Dec15) == "20211215";
  }

  /** The episode test: name, overview, 2021, 2021-12-15, numbers 1 and 1, first person "Someone". */
  lemma EpisodeTestVector()
    ensures var r := JsonToEpisode(CoolVideo, "id123");
      && r.item.value.name == Some("Cool Video")
      && r.item.value.overview == Some("This is the best video.")
      && r.item.value.productionYear == Some(2021)
      && r.item.value.premiereDate == Some(Dec15)
      && r.item.value.indexNumber == Some(1) && r.item.value.parentIndexNumber == Some(1)
      && r.people[0].name == Some("Someone")
  {
    ParsesDec15();
  }

  /** The first music-video test: the whole expected result. */
  lemma MusicVideoTestVector()
    ensures JsonToMusicVideo(FooSong, "id123") == MetadataResult(true,
      Some(MediaItem(MusicVideo, Some("Foo"), Some("Some music"), Some(2021), Some(Dec15), None, None, Some("Bar"), ["Someone"], map[])),
      [Person(Some("ankenyr"), Director, map["YoutubeMetadata" := "abc123"])])
  {
    ParsesDec15();
  }

  /** The movie test: the whole expected result, director before actor. */
  lemma MovieTestVector()
    ensures JsonToMovie(FooMovie, "id123") == MetadataResult(true,
      Some(MediaItem(Movie, Some("Foo"), Some("Some movie"), Some(2021), Some(Dec15), None, None, None, [], map[])),
      [Person(Some("ankenyr"), Director, map["YoutubeMetadata" := "abc123"]),
       Person(Some("ankenyr"), Actor, map["YoutubeMetadata" := "abc123"])])
  {
    ParsesDec15();
  }
}
