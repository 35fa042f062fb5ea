/** The shapes of source/models.ts and src/models.ts, plus the loosely typed JSON a
    language model returns, and the interval vocabulary the strippers are judged by.

    A time is an integer number of hundredths of a second. Neither schema asks for
    `startSeconds <= endSeconds`, so a `TimeRange` may be inverted or negative. */
module Models {

  datatype TimeRange = TimeRange(startSeconds: int, endSeconds: int)

  datatype TextSegment = TextSegment(startSeconds: int, endSeconds: int, text: string)

  /** The sort key both TypeScript strippers use: `a.startSeconds - b.startSeconds`. */
  function StartOf(r: TimeRange): int
  {
    r.startSeconds
  }

  /** Time t lies in the half-open range [start, end). */
  predicate InRange(t: int, r: TimeRange)
  {
    r.startSeconds <= t < r.endSeconds
  }

  ghost predicate InAnyRange(t: int, rs: seq<TimeRange>)
  {
    exists i :: 0 <= i < |rs| && InRange(t, rs[i])
  }

  function Max(a: int, b: int): int
  {
    if a < b then b else a
  }

  function Min(a: int, b: int): int
  {
    if a < b then a else b
  }

  /** Two half-open ranges share a time. */
  predicate Overlap(a: TimeRange, b: TimeRange)
  {
    Max(a.startSeconds, b.startSeconds) < Min(a.endSeconds, b.endSeconds)
  }

  lemma OverlapIfSharedPoint(t: int, a: TimeRange, b: TimeRange)
    requires InRange(t, a) && InRange(t, b)
    ensures Overlap(a, b)
  {
  }

  predicate WellFormed(r: TimeRange)
  {
    r.startSeconds <= r.endSeconds
  }

  /** Each range ends no later than any later range starts: with non-empty ranges,
      strictly ascending and pairwise disjoint. */
  ghost predicate Ascending(rs: seq<TimeRange>)
  {
    forall i, j :: 0 <= i < j < |rs| ==> rs[i].endSeconds <= rs[j].startSeconds
  }

  /** A value `JSON.parse` or a structured-output SDK can hand back. A number is kept
      in hundredths, like every time in the model. */
  datatype Json =
    | JNull
    | JBool(b: bool)
    | JNumber(n: int)
    | JString(s: string)
    | JArray(items: seq<Json>)
    | JObject(fields: map<string, Json>)

  datatype FeedMetadata = FeedMetadata(
    title: string,
    description: string,
    link: string,
    language: string,
    category: string,
    explicit: string,
    imageUrl: string,
    guid: string,
    author: string)

  datatype EpisodeMetadata = EpisodeMetadata(
    title: string,
    guid: string,
    link: string,
    publishDate: string,
    description: string,
    imageUrl: string,
    explicit: string,
    transcript: string)
}
