/**
 * The remote episode provider as the provider tests pin it down: the video id
 * comes from the bracketed token in the media path, and the cached sidecar
 * `<cache>/youtubemetadata/<id>/ytvideo.info.json` is mapped as an episode.
 */
module RemoteEpisode {
  import opened Wrappers
  import opened Paths
  import opened FileSystem
  import opened YoutubeIds
  import opened Records
  import LocalProvider

  const CacheFolder: string := "youtubemetadata"
  const VideoInfoName: string := "ytvideo.info.json"

  /** The cached sidecar of video `id` under the server's cache directory. */
  function VideoInfoPath(cache: string, id: string): string {
    Combine(Combine(Combine(cache, CacheFolder), id), VideoInfoName)
  }

  /**
   * GetMetadata for an episode path: no bracketed 11-character id gives the
   * empty result; otherwise the cached sidecar of that id, when present and
   * parsed, mapped as an episode with that id.
   */
  function GetMetadata(fs: Snapshot, sidecars: LocalProvider.Sidecars, cache: string, path: string): (r: MetadataResult)
    ensures VideoId(path).None? ==> r == NoMetadata
    ensures r.hasMetadata <==> VideoId(path).Some? && GetFileInfo(fs, VideoInfoPath(cache, VideoId(path).value)).present
                                && VideoInfoPath(cache, VideoId(path).value) in sidecars
    ensures r.hasMetadata ==> r == JsonToEpisode(sidecars[VideoInfoPath(cache, VideoId(path).value)], VideoId(path).value)
  {
    match VideoId(path)
    case None => NoMetadata
    case Some(id) =>
      var infoPath := VideoInfoPath(cache, id);
      if GetFileInfo(fs, infoPath).present && infoPath in sidecars then JsonToEpisode(sidecars[infoPath], id)
      else NoMetadata
  }

  /** For a plain cache directory and an id without separators, the cached sidecar path spelled out. */
  lemma VideoInfoPathShape(cache: string, id: string)
    requires cache != [] && cache[|cache| - 1] != Sep
    requires id != [] && HasNoSep(id)
    ensures VideoInfoPath(cache, id) == cache + "/youtubemetadata/" + id + "/ytvideo.info.json"
  {
    var a := Combine(cache, CacheFolder);
    assert a == cache + "/youtubemetadata";
    var b := Combine(a, id);
    assert b == a + "/" + id;
    assert VideoInfoPath(cache, id) == b + "/ytvideo.info.json";
  }

  /** An extracted video id never holds a separator, so the cached sidecar stays under the id's own folder. */
  lemma VideoIdHasNoSep(path: string)
    requires VideoId(path).Some?
    ensures HasNoSep(VideoId(path).value) && |VideoId(path).value| == VideoIdLength
  {
    var id := VideoId(path).value;
    forall k | 0 <= k < |id| ensures id[k] != Sep {
      assert IsIdChar(id[k]);
    }
  }

  const TestCache: string := "/cache"
  const TestPath: string := "/Something [AAAAAAAAAAA].mkv"

  /** The record the cached-results test stores: the episode test's record with an empty thumbnail list. */
  const CachedVideo: SidecarRecord := CoolVideo.(thumbnails := Some([]))

  /**
   * The cached-results test: for `/Something [AAAAAAAAAAA].mkv` the record
   * cached at `/cache/youtubemetadata/AAAAAAAAAAA/ytvideo.info.json` is mapped.
   */
  lemma CachedResultsTestVector(fs: Snapshot, sidecars: LocalProvider.Sidecars)
    requires var p := TestCache + "/youtubemetadata/" + "AAAAAAAAAAA" + "/ytvideo.info.json";
             p in fs.nodes && !fs.nodes[p].isDirectory && p in sidecars && sidecars[p] == CachedVideo
    ensures var r := GetMetadata(fs, sidecars, TestCache, TestPath);
      && r.hasMetadata
      && r.item.value.name == Some("Cool Video")
      && r.item.value.overview == Some("This is the best video.")
      && r.item.value.productionYear == Some(2021)
      && r.item.value.premiereDate == Some(Dec15)
      && r.item.value.indexNumber == Some(1) && r.item.value.parentIndexNumber == Some(1)
      && r.people[0].name == Some("Someone")
  {
    var id := "AAAAAAAAAAA";
    TestPathWithId();
    assert VideoId(TestPath) == Some(id);
    TestCachePath();
    var p := VideoInfoPath(TestCache, id);
    assert GetFileInfo(fs, p).present;
    assert GetMetadata(fs, sidecars, TestCache, TestPath) == JsonToEpisode(CachedVideo, id);
    EpisodeFields(id);
  }

  lemma TestCachePath()
    ensures VideoInfoPath(TestCache, "AAAAAAAAAAA") == TestCache + "/youtubemetadata/" + "AAAAAAAAAAA" + "/ytvideo.info.json"
  {
    var id := "AAAAAAAAAAA";
    assert HasNoSep(id);
    VideoInfoPathShape(TestCache, id);
  }

  lemma EpisodeFields(id: string)
    ensures var r := JsonToEpisode(CachedVideo, id);
      && r.item.value.name == Some("Cool Video")
      && r.item.value.overview == Some("This is the best video.")
      && r.item.value.productionYear == Some(2021)
      && r.item.value.premiereDate == Some(Dec15)
      && r.item.value.indexNumber == Some(1) && r.item.value.parentIndexNumber == Some(1)
      && r.people[0].name == Some("Someone")
  {
    ParsesDec15();
  }

  /** The invalid-id tests: no bracketed id, whatever the cache holds, means no metadata. */
  lemma InvalidIdTestVectors(fs: Snapshot, sidecars: LocalProvider.Sidecars, cache: string)
    ensures !GetMetadata(fs, sidecars, cache, "/Foo.mkv").hasMetadata
    ensures !GetMetadata(fs, sidecars, cache, "/2019 - Foo (AAAAAAAAAAA).mp4").hasMetadata
  {
    TestPathsWithoutId();
  }
}
