/** src/main.py: the pickle cache behind `run_with_cache`, the choice of the
    latest episode's audio link, and the cache keys of `process_latest_episode`.

    The feed is what `feedparser.parse` returns; SHA-256 is the `digest`
    parameter of a cache; `fn` is its outcome, the value it would return or the
    exception it would raise, and the cache reports whether it was called. */
module PodcastProcessor {
  import opened Wrappers
  import opened Models

  // The cache

  /** `os.path.join(directory, name)` for two components. */
  function PathJoin(directory: string, name: string): string
  {
    if |name| > 0 && name[0] == '/' then name
    else if directory == [] || directory[|directory| - 1] == '/' then directory + name
    else directory + "/" + name
  }

  /** One `run_with_cache` on the files of the cache directory: a stored value is
      returned without calling `fn`; otherwise `fn` runs, and its value is stored
      and returned, or its exception propagates before anything is written. */
  function CacheStep<T>(files: map<string, T>, path: string, outcome: Result<T>): (map<string, T>, Result<T>, bool)
  {
    if path in files then (files, Success(files[path]), false)
    else if outcome.Failure? then (files, outcome, true)
    else (files[path := outcome.value], outcome, true)
  }

  class Cache<T> {
    const cacheDir: string
    /** The hexadecimal SHA-256 digest of a key's UTF-8 encoding. */
    const digest: string -> string
    /** The pickled values in the directory, by path. */
    var files: map<string, T>

    constructor(cacheDir: string, digest: string -> string, files: map<string, T>)
      ensures this.cacheDir == cacheDir && this.digest == digest && this.files == files
    {
      this.cacheDir := cacheDir;
      this.digest := digest;
      this.files := files;
    }

    function PathOf(key: string): string
    {
      PathJoin(cacheDir, digest(key) + ".pkl")
    }

    /** `run_with_cache(fn, key, cache_dir)`, where `outcome` is what `fn()`
        returns or raises; `called` says whether `fn` ran. */
    method RunWithCache(key: string, outcome: Result<T>) returns (result: Result<T>, called: bool)
      modifies this
      ensures (files, result, called) == CacheStep(old(files), PathOf(key), outcome)
    {
      var path := PathOf(key);
      if path in files {
        result, called := Success(files[path]), false;
        return;
      }
      result, called := outcome, true;
      if result.Failure? {
        return;
      }
      files := files[path := result.value];
    }
  }

  /** A hit returns the stored value without calling `fn`; a miss calls `fn`,
      returns its outcome, and stores the value exactly when `fn` returned one;
      either way no other file changes. */
  lemma CacheStepHitOrMiss<T>(files: map<string, T>, path: string, outcome: Result<T>)
    ensures var (after, result, called) := CacheStep(files, path, outcome);
      && (called <==> path !in files)
      && (called ==> result == outcome)
      && (!called ==> result == Success(files[path]) && after == files)
      && (result.Success? ==> path in after && after[path] == result.value)
      && (result.Failure? ==> after == files)
      && after.Keys == files.Keys + (if result.Success? then {path} else {})
      && (forall p :: p in files && p != path ==> p in after && after[p] == files[p])
  {
  }

  /** A second call with the same key hits exactly when the first one left a
      value: it then returns that value without calling `fn`, whatever `fn`
      would do now. After a raising `fn` nothing was stored, so the second call
      runs `fn` again and returns its outcome. */
  lemma {:induction false} RepeatedCallHits<T>(files: map<string, T>, path: string, first: Result<T>, second: Result<T>)
    ensures var (afterFirst, r1, c1) := CacheStep(files, path, first);
      var (afterSecond, r2, c2) := CacheStep(afterFirst, path, second);
      && (r1.Success? ==> r2 == r1 && !c2 && afterSecond == afterFirst)
      && (r1.Failure? ==> c2 && r2 == second && afterFirst == files)
  {
    CacheStepHitOrMiss(files, path, first);
  }

  /** What `hexdigest` returns: lower-case hexadecimal digits. */
  predicate IsHexDigest(s: string)
  {
    forall i :: 0 <= i < |s| ==> '0' <= s[i] <= '9' || 'a' <= s[i] <= 'f'
  }

  /** Keys with different digests are kept in different files. */
  lemma PathsDiffer(cacheDir: string, digestA: string, digestB: string)
    requires IsHexDigest(digestA) && IsHexDigest(digestB) && digestA != digestB
    ensures PathJoin(cacheDir, digestA + ".pkl") != PathJoin(cacheDir, digestB + ".pkl")
  {
    var a, b := digestA + ".pkl", digestB + ".pkl";
    if |a| == |b| {
      var k :| 0 <= k < |digestA| && digestA[k] != digestB[k];
      assert a[k] != b[k];
    } else {
      assert a != b;
    }
    assert a[0] != '/' && b[0] != '/';
    var prefix := PathJoin(cacheDir, a)[..|PathJoin(cacheDir, a)| - |a|];
    assert PathJoin(cacheDir, a) == prefix + a;
    assert PathJoin(cacheDir, b) == prefix + b;
    assert (prefix + a)[|prefix|..] == a;
    assert (prefix + b)[|prefix|..] == b;
  }

  // Cache keys of `process_latest_episode`

  function TranscriptKey(audioUrl: string): string
  {
    "transcript-" + audioUrl
  }

  function AdvertTimestampsKey(audioUrl: string): string
  {
    "advert_timestamps-" + audioUrl
  }

  /** The transcript and the advert timestamps are cached under different keys,
      and each key names a single audio URL. */
  lemma CacheKeysDistinct(u: string, v: string)
    ensures TranscriptKey(u) != AdvertTimestampsKey(v)
    ensures TranscriptKey(u) == TranscriptKey(v) <==> u == v
    ensures AdvertTimestampsKey(u) == AdvertTimestampsKey(v) <==> u == v
  {
    assert TranscriptKey(u)[0] == 't' && AdvertTimestampsKey(v)[0] == 'a';
    if TranscriptKey(u) == TranscriptKey(v) {
      assert u == TranscriptKey(u)[11..] && v == TranscriptKey(v)[11..];
    }
    if AdvertTimestampsKey(u) == AdvertTimestampsKey(v) {
      assert u == AdvertTimestampsKey(u)[18..] && v == AdvertTimestampsKey(v)[18..];
    }
  }

  // The latest episode's audio link

  /** A feed entry; `None` when it has no `links`, or `links` is `None`. */
  datatype Entry = Entry(links: Option<seq<Json>>)
  datatype Feed = Feed(entries: seq<Entry>)

  const AudioMpeg := "audio/mpeg"
  const NoEpisodesError := "No podcast episodes found in the RSS feed"
  const NoAudioUrlError := "No audio URL found in the latest episode"

  /** A link the selection accepts: a dict whose `type` is `audio/mpeg` and whose
      `href` is a string. */
  predicate IsAudioLink(link: Json)
  {
    && link.JObject?
    && "type" in link.fields && link.fields["type"] == JString(AudioMpeg)
    && "href" in link.fields && link.fields["href"].JString?
  }

  /** The position of the first accepted link. */
  function FirstAudioLink(links: seq<Json>): (r: Option<nat>)
    ensures r.Some? ==> r.value < |links| && IsAudioLink(links[r.value])
    ensures r.Some? ==> forall j :: 0 <= j < r.value ==> !IsAudioLink(links[j])
    ensures r.None? ==> forall j :: 0 <= j < |links| ==> !IsAudioLink(links[j])
  {
    if links == [] then None
    else if IsAudioLink(links[0]) then Some(0)
    else match FirstAudioLink(links[1..])
      case None => None
      case Some(i) => Some(i + 1)
  }

  /** `links_source`: the links of an entry, empty when missing or falsy. */
  function LinksOf(entry: Entry): seq<Json>
  {
    entry.links.GetOr([])
  }

  /** `get_latest_episode_url`: the `href` of the first accepted link of the first
      entry. The search stops at that link, so an empty `href` there is an error
      even when a later link would have been accepted. */
  function GetLatestEpisodeUrl(feed: Feed): (r: Result<string>)
    ensures feed.entries == [] ==> r == Failure(NoEpisodesError)
    ensures feed.entries != [] && r.Failure? ==> r.error == NoAudioUrlError
    ensures r.Success? ==> r.value != "" && exists i ::
      && 0 <= i < |LinksOf(feed.entries[0])|
      && IsAudioLink(LinksOf(feed.entries[0])[i])
      && (forall j :: 0 <= j < i ==> !IsAudioLink(LinksOf(feed.entries[0])[j]))
      && LinksOf(feed.entries[0])[i].fields["href"] == JString(r.value)
  {
    if feed.entries == [] then Failure(NoEpisodesError)
    else
      var links := LinksOf(feed.entries[0]);
      match FirstAudioLink(links)
      case None => Failure(NoAudioUrlError)
      case Some(i) =>
        var href := links[i].fields["href"].s;
        if href == "" then Failure(NoAudioUrlError) else Success(href)
  }

  /** The converse: the first accepted link of the first entry, when its `href`
      is not empty, is the URL chosen, whatever the later entries and links. */
  lemma FirstAudioLinkChosen(feed: Feed, i: nat, href: string)
    requires feed.entries != [] && i < |LinksOf(feed.entries[0])|
    requires IsAudioLink(LinksOf(feed.entries[0])[i])
    requires forall j :: 0 <= j < i ==> !IsAudioLink(LinksOf(feed.entries[0])[j])
    requires LinksOf(feed.entries[0])[i].fields["href"] == JString(href) && href != ""
    ensures GetLatestEpisodeUrl(feed) == Success(href)
  {
  }

  /** An entry with no accepted link gives no URL. */
  lemma NoAudioLinkFails(feed: Feed)
    requires feed.entries != []
    requires forall j :: 0 <= j < |LinksOf(feed.entries[0])| ==> !IsAudioLink(LinksOf(feed.entries[0])[j])
    ensures GetLatestEpisodeUrl(feed) == Failure(NoAudioUrlError)
  {
  }
}
