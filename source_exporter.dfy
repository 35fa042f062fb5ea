/** source/exporter.ts: `R2Exporter` uploads the stripped episode, each advert
    and a one-episode RSS 2.0 feed to an S3-compatible bucket.

    The S3 client is replaced by the log of the `PutObject` requests it was sent,
    in order. */
module SourceExporter {
  import opened Wrappers
  import opened Numbers
  import opened Models

  type Byte = bv8

  /** `StrippedResult`: the episode without adverts and each advert cut out. */
  datatype StrippedResult = StrippedResult(podcast: seq<Byte>, adverts: seq<seq<Byte>>)

  datatype Body = Bytes(bytes: seq<Byte>) | Text(text: string)

  /** The fields of one `PutObjectCommand`. */
  datatype PutObject = PutObject(bucket: string, key: string, body: Body, contentType: string)

  const AudioType := "audio/mpeg"
  const RssType := "application/rss+xml"

  function EpisodeKey(feedGuid: string, episodeGuid: string): string
  {
    feedGuid + "/" + episodeGuid + ".mp3"
  }

  /** The key of the advert at 0-based index `i`; advert numbers start at 1. */
  function AdvertKey(feedGuid: string, i: nat, episodeGuid: string): string
  {
    feedGuid + "/advert-" + (NatToString(i + 1) + "-" + episodeGuid + ".mp3")
  }

  function FeedKey(feedGuid: string): string
  {
    feedGuid + "/feed.xml"
  }

  function PublicUrl(publicUrl: string, key: string): string
  {
    publicUrl + "/" + key
  }

  /** A template literal: its literal pieces with the substituted values between
      them, `pieces[0] + values[0] + pieces[1] + ... + pieces[n]`. */
  function Template(pieces: seq<string>, values: seq<string>): string
    requires |pieces| == |values| + 1
  {
    if values == [] then pieces[0]
    else Template(pieces[..|values|], values[..|values| - 1]) + (values[|values| - 1] + pieces[|values|])
  }

  /** `x` stands in `s` from index `i` on. */
  predicate OccursAt(x: string, s: string, i: int)
  {
    0 <= i <= |s| - |x| && s[i..i + |x|] == x
  }

  /** `x` occurs somewhere in `s`. */
  ghost predicate Occurs(x: string, s: string)
  {
    exists i :: OccursAt(x, s, i)
  }

  /** The literal text of `generateRssFeed`'s template, around its 23
      substitutions. */
  const RssPieces: seq<string> := [
    "<?xml version=\"1.0\" encoding=\"UTF-8\"?>\n<rss version=\"2.0\"\n        xmlns:itunes=\"http://www.itunes.com/dtds/podcast-1.0.dtd\"\n        xmlns:atom=\"http://www.w3.org/2005/Atom\"\n        xmlns:podcast=\"https://podcastindex.org/namespace/1.0\">\n    <channel>\n        <atom:link href=\"",
    "\" rel=\"self\" type=\"application/rss+xml\" />\n        <title>",
    " - Adblocked</title>\n        <description><![CDATA[",
    "]]></description>\n        <link>",
    "</link>\n        <language>",
    "</language>\n        <itunes:category text=\"",
    "\" />\n        <itunes:explicit>",
    "</itunes:explicit>\n        <itunes:image href=\"",
    "\" />\n        <podcast:locked>",
    "</podcast:locked>\n        <podcast:guid>",
    "-podcast-adblocker</podcast:guid>\n        <itunes:author><![CDATA[",
    "]]></itunes:author>\n        <item>\n            <title>",
    "</title>\n            <enclosure length=\"",
    "\" type=\"",
    "\" url=\"",
    "\"/>\n            <guid>",
    "-podcast-adblocker</guid>\n            <link>",
    "</link>\n            <pubDate>",
    "</pubDate>\n            <description>",
    "</description>\n            <itunes:duration>",
    "</itunes:duration>\n            <itunes:image href=\"",
    "\" />\n            <itunes:explicit>",
    "</itunes:explicit>\n            <podcast:transcript>",
    "</podcast:transcript>\n        </item>\n    </channel>\n</rss>"
  ]

  /** The substitutions of the template, in the order they appear. */
  function RssValues(
    episodeUrl: string, episodeCodec: string, episodeLengthBytes: nat, episodeDuration: string,
    feedLink: string, feed: FeedMetadata, episode: EpisodeMetadata, feedLocked: string): seq<string>
  {
    [feedLink, feed.title, feed.description, feed.link, feed.language, feed.category,
     feed.explicit, feed.imageUrl, feedLocked, feed.guid, feed.author,
     episode.title, NatToString(episodeLengthBytes), episodeCodec, episodeUrl,
     episode.guid, episode.link, episode.publishDate, episode.description,
     episodeDuration, episode.imageUrl, episode.explicit, episode.transcript]
  }

  /** `generateRssFeed`: every value is substituted verbatim, without XML escaping. */
  function GenerateRssFeed(
    episodeUrl: string, episodeCodec: string, episodeLengthBytes: nat, episodeDuration: string,
    feedLink: string, feed: FeedMetadata, episode: EpisodeMetadata, feedLocked: string): string
  {
    Template(RssPieces, RssValues(episodeUrl, episodeCodec, episodeLengthBytes, episodeDuration,
                                  feedLink, feed, episode, feedLocked))
  }

  /** The default of the `feedLocked` parameter. */
  const DefaultFeedLocked := "true"

  /** The feed `export` uploads, for the episode's byte length and whole-second
      duration. */
  function FeedFor(publicUrl: string, result: StrippedResult, feed: FeedMetadata,
                   episode: EpisodeMetadata, wholeSeconds: nat): string
  {
    GenerateRssFeed(PublicUrl(publicUrl, EpisodeKey(feed.guid, episode.guid)), AudioType,
                    |result.podcast|, NatToString(wholeSeconds),
                    PublicUrl(publicUrl, FeedKey(feed.guid)), feed, episode, DefaultFeedLocked)
  }

  function AdvertUploads(bucketName: string, feedGuid: string, episodeGuid: string,
                         adverts: seq<seq<Byte>>): seq<PutObject>
  {
    seq(|adverts|, i requires 0 <= i < |adverts| =>
      PutObject(bucketName, AdvertKey(feedGuid, i, episodeGuid), Bytes(adverts[i]), AudioType))
  }

  lemma AdvertUploadsStep(bucketName: string, feedGuid: string, episodeGuid: string,
                          adverts: seq<seq<Byte>>, i: nat)
    requires i < |adverts|
    ensures AdvertUploads(bucketName, feedGuid, episodeGuid, adverts[..i + 1])
            == AdvertUploads(bucketName, feedGuid, episodeGuid, adverts[..i])
               + [PutObject(bucketName, AdvertKey(feedGuid, i, episodeGuid), Bytes(adverts[i]), AudioType)]
  {
    var longer := AdvertUploads(bucketName, feedGuid, episodeGuid, adverts[..i + 1]);
    var shorter := AdvertUploads(bucketName, feedGuid, episodeGuid, adverts[..i]);
    forall k | 0 <= k < i ensures longer[k] == shorter[k] {
      assert adverts[..i + 1][k] == adverts[..i][k];
    }
  }

  /** Every request `export` sends, in order: the episode, the adverts, then the
      feed `rss`. */
  function Uploads(bucketName: string, result: StrippedResult, feed: FeedMetadata,
                   episode: EpisodeMetadata, rss: string): seq<PutObject>
  {
    [PutObject(bucketName, EpisodeKey(feed.guid, episode.guid), Bytes(result.podcast), AudioType)]
      + AdvertUploads(bucketName, feed.guid, episode.guid, result.adverts)
      + [PutObject(bucketName, FeedKey(feed.guid), Text(rss), RssType)]
  }

  /** The duration `music-metadata` reports, floored, or 0 when it reports none. */
  function WholeSeconds(parsedDuration: Option<nat>): nat
  {
    parsedDuration.GetOr(0)
  }

  class R2Exporter {
    var bucketName: string
    var publicUrl: string
    /** The requests sent to the bucket so far, oldest first. */
    var sent: seq<PutObject>

    constructor(bucketName: string, publicUrl: string)
      ensures this.bucketName == bucketName && this.publicUrl == publicUrl && sent == []
    {
      this.bucketName := bucketName;
      this.publicUrl := publicUrl;
      sent := [];
    }

    /** `export`; `parsedDuration` is the floored duration `parseBuffer` reads
        from the episode, `None` when it reads none. */
    method Export(result: StrippedResult, feed: FeedMetadata, episode: EpisodeMetadata,
                  parsedDuration: Option<nat>)
      modifies this
      ensures bucketName == old(bucketName) && publicUrl == old(publicUrl)
      ensures sent == old(sent) + Uploads(bucketName, result, feed, episode,
                                          FeedFor(publicUrl, result, feed, episode, WholeSeconds(parsedDuration)))
    {
      var episodeFileName := EpisodeKey(feed.guid, episode.guid);
      var episodeUrl := PublicUrl(publicUrl, episodeFileName);
      sent := sent + [PutObject(bucketName, episodeFileName, Bytes(result.podcast), AudioType)];
      var adverts := result.adverts;
      ghost var before := sent;
      for i := 0 to |adverts|
        invariant bucketName == old(bucketName) && publicUrl == old(publicUrl)
        invariant sent == before + AdvertUploads(bucketName, feed.guid, episode.guid, adverts[..i])
      {
        var advertKey := AdvertKey(feed.guid, i, episode.guid);
        AdvertUploadsStep(bucketName, feed.guid, episode.guid, adverts, i);
        sent := sent + [PutObject(bucketName, advertKey, Bytes(adverts[i]), AudioType)];
      }
      assert adverts[..|adverts|] == adverts;
      var episodeDuration := NatToString(WholeSeconds(parsedDuration));
      var rss := GenerateRssFeed(episodeUrl, AudioType, |result.podcast|, episodeDuration,
                                 PublicUrl(publicUrl, FeedKey(feed.guid)), feed, episode, DefaultFeedLocked);
      sent := sent + [PutObject(bucketName, FeedKey(feed.guid), Text(rss), RssType)];
    }
  }

  // Keys

  lemma KeyEndings(feedGuid: string, episodeGuid: string, i: nat)
    ensures EpisodeKey(feedGuid, episodeGuid)[|EpisodeKey(feedGuid, episodeGuid)| - 4..] == ".mp3"
    ensures AdvertKey(feedGuid, i, episodeGuid)[|AdvertKey(feedGuid, i, episodeGuid)| - 4..] == ".mp3"
    ensures FeedKey(feedGuid)[|FeedKey(feedGuid)| - 4..] == ".xml"
  {
  }

  /** The advert number is the run of digits after `advert-`, so two adverts of the
      same episode share a key only when they share an index. */
  lemma AdvertKeysDistinct(feedGuid: string, episodeGuid: string, i: nat, j: nat)
    requires i != j
    ensures AdvertKey(feedGuid, i, episodeGuid) != AdvertKey(feedGuid, j, episodeGuid)
  {
    var head := feedGuid + "/advert-";
    var ri := NatToString(i + 1) + ("-" + episodeGuid + ".mp3");
    var rj := NatToString(j + 1) + ("-" + episodeGuid + ".mp3");
    assert AdvertKey(feedGuid, i, episodeGuid) == head + ri;
    assert AdvertKey(feedGuid, j, episodeGuid) == head + rj;
    if head + ri == head + rj {
      assert ri == (head + ri)[|head|..];
      DigitPrefixOf(NatToString(i + 1), "-" + episodeGuid + ".mp3");
      DigitPrefixOf(NatToString(j + 1), "-" + episodeGuid + ".mp3");
      assert NatToString(i + 1) == ri[..DigitPrefix(ri)];
      NatToStringInjective(i + 1, j + 1);
    }
  }

  /** The episode key is shorter than every advert key of the same feed and
      episode. */
  lemma EpisodeKeyNotAdvertKey(feedGuid: string, episodeGuid: string, i: nat)
    ensures EpisodeKey(feedGuid, episodeGuid) != AdvertKey(feedGuid, i, episodeGuid)
  {
    assert |AdvertKey(feedGuid, i, episodeGuid)| > |EpisodeKey(feedGuid, episodeGuid)|;
  }

  /** One export's requests: the episode first, each advert in index order, the
      feed last, all to the same bucket and into the feed's folder. */
  lemma UploadsInOrder(bucketName: string, result: StrippedResult, feed: FeedMetadata,
                       episode: EpisodeMetadata, rss: string)
    ensures var u := Uploads(bucketName, result, feed, episode, rss);
      && |u| == |result.adverts| + 2
      && u[0] == PutObject(bucketName, EpisodeKey(feed.guid, episode.guid), Bytes(result.podcast), AudioType)
      && (forall i :: 0 <= i < |result.adverts| ==>
            u[i + 1] == PutObject(bucketName, AdvertKey(feed.guid, i, episode.guid), Bytes(result.adverts[i]), AudioType))
      && u[|u| - 1] == PutObject(bucketName, FeedKey(feed.guid), Text(rss), RssType)
      && (forall k :: 0 <= k < |u| ==> u[k].bucket == bucketName && u[k].key[..|feed.guid| + 1] == feed.guid + "/")
  {
  }

  /** The key of the `k`-th of `n + 2` uploads. */
  function ExportKey(feedGuid: string, episodeGuid: string, n: nat, k: nat): string
  {
    if k == 0 then EpisodeKey(feedGuid, episodeGuid)
    else if k <= n then AdvertKey(feedGuid, k - 1, episodeGuid)
    else FeedKey(feedGuid)
  }

  lemma ExportKeysDistinct(feedGuid: string, episodeGuid: string, n: nat, k: nat, l: nat)
    requires k < l < n + 2
    ensures ExportKey(feedGuid, episodeGuid, n, k) != ExportKey(feedGuid, episodeGuid, n, l)
  {
    if l == n + 1 {
      KeyEndings(feedGuid, episodeGuid, if k == 0 then 0 else k - 1);
    } else if k == 0 {
      EpisodeKeyNotAdvertKey(feedGuid, episodeGuid, l - 1);
    } else {
      AdvertKeysDistinct(feedGuid, episodeGuid, k - 1, l - 1);
    }
  }

  /** The keys of one export are pairwise distinct, so no upload overwrites
      another. */
  lemma UploadKeysDistinct(bucketName: string, result: StrippedResult, feed: FeedMetadata,
                           episode: EpisodeMetadata, rss: string)
    ensures var u := Uploads(bucketName, result, feed, episode, rss);
      forall k, l :: 0 <= k < l < |u| ==> u[k].key != u[l].key
  {
    var u := Uploads(bucketName, result, feed, episode, rss);
    var n := |result.adverts|;
    UploadsInOrder(bucketName, result, feed, episode, rss);
    assert forall k :: 0 <= k < |u| ==> u[k].key == ExportKey(feed.guid, episode.guid, n, k);
    forall k, l | 0 <= k < l < |u| ensures u[k].key != u[l].key {
      ExportKeysDistinct(feed.guid, episode.guid, n, k, l);
    }
  }



  // The feed

  lemma {:induction false} TemplateEndsWithPiece(pieces: seq<string>, values: seq<string>)
    requires |pieces| == |values| + 1
    ensures var t := Template(pieces, values);
      |t| >= |pieces[|values|]| && t[|t| - |pieces[|values|]|..] == pieces[|values|]
  {
  }

  lemma {:induction false} TemplatePrefix(pieces: seq<string>, values: seq<string>, j: nat)
    requires |pieces| == |values| + 1 && j <= |values|
    ensures var p := Template(pieces[..j + 1], values[..j]);
      |p| <= |Template(pieces, values)| && Template(pieces, values)[..|p|] == p
    decreases |values|
  {
    if j < |values| {
      var n := |values|;
      TemplatePrefix(pieces[..n], values[..n - 1], j);
      assert pieces[..n][..j + 1] == pieces[..j + 1];
      assert values[..n - 1][..j] == values[..j];
    } else {
      assert pieces[..j + 1] == pieces && values[..j] == values;
    }
  }

  /** Each value stands in the text between the literal pieces around it. */
  lemma TemplateSubstitutes(pieces: seq<string>, values: seq<string>, k: nat)
    requires |pieces| == |values| + 1 && k < |values|
    ensures OccursAt(pieces[k] + (values[k] + pieces[k + 1]), Template(pieces, values),
                     |Template(pieces[..k + 1], values[..k])| - |pieces[k]|)
  {
    var before := Template(pieces[..k + 1], values[..k]);
    assert Template(pieces[..k + 2], values[..k + 1]) == before + (values[k] + pieces[k + 1]) by {
      assert pieces[..k + 2][..k + 1] == pieces[..k + 1];
      assert values[..k + 1][..k] == values[..k];
    }
    TemplateEndsWithPiece(pieces[..k + 1], values[..k]);
    TemplatePrefix(pieces, values, k + 1);
    InfixOf(before, pieces[k], values[k] + pieces[k + 1], Template(pieces, values));
  }

  /** A text that starts with `before + rest`, where `before` ends in `p`, holds
      `p + rest`. */
  lemma InfixOf(before: string, p: string, rest: string, t: string)
    requires |p| <= |before| && before[|before| - |p|..] == p
    requires |before + rest| <= |t| && t[..|before + rest|] == before + rest
    ensures OccursAt(p + rest, t, |before| - |p|)
  {
    var i := |before| - |p|;
    assert t[i..i + |p + rest|] == (before + rest)[i..];
    assert (before + rest)[i..] == before[i..] + rest;
  }

  /** The `k`-th substitution of the feed an export uploads, between the literal
      text around it. */
  lemma FeedSubstitution(publicUrl: string, result: StrippedResult, feed: FeedMetadata,
                         episode: EpisodeMetadata, wholeSeconds: nat, k: nat,
                         opening: string, value: string, closing: string)
    requires k < 23 && opening == RssPieces[k] && closing == RssPieces[k + 1]
    requires value == RssValues(PublicUrl(publicUrl, EpisodeKey(feed.guid, episode.guid)), AudioType,
                                |result.podcast|, NatToString(wholeSeconds),
                                PublicUrl(publicUrl, FeedKey(feed.guid)), feed, episode, DefaultFeedLocked)[k]
    ensures Occurs(opening + (value + closing), FeedFor(publicUrl, result, feed, episode, wholeSeconds))
  {
    TemplateSubstitutes(RssPieces, RssValues(PublicUrl(publicUrl, EpisodeKey(feed.guid, episode.guid)), AudioType,
                                             |result.podcast|, NatToString(wholeSeconds),
                                             PublicUrl(publicUrl, FeedKey(feed.guid)), feed, episode, DefaultFeedLocked),
                        k);
  }

  /** The channel's self link (`<atom:link href="…"`) is the feed's own public URL, the key the feed is uploaded under. */
  lemma FeedSelfLink(publicUrl: string, result: StrippedResult, feed: FeedMetadata,
               episode: EpisodeMetadata, wholeSeconds: nat)
    ensures Occurs(RssPieces[0] + (PublicUrl(publicUrl, FeedKey(feed.guid)) + RssPieces[1]), FeedFor(publicUrl, result, feed, episode, wholeSeconds))
  {
    FeedSubstitution(publicUrl, result, feed, episode, wholeSeconds, 0, RssPieces[0], PublicUrl(publicUrl, FeedKey(feed.guid)), RssPieces[1]);
  }

  /** The channel title (`<title>…</title>`) is the feed's title followed by ` - Adblocked`. */
  lemma FeedTitle(publicUrl: string, result: StrippedResult, feed: FeedMetadata,
               episode: EpisodeMetadata, wholeSeconds: nat)
    ensures Occurs(RssPieces[1] + (feed.title + RssPieces[2]), FeedFor(publicUrl, result, feed, episode, wholeSeconds))
  {
    FeedSubstitution(publicUrl, result, feed, episode, wholeSeconds, 1, RssPieces[1], feed.title, RssPieces[2]);
  }

  /** The channel description is the feed's, wrapped in CDATA. */
  lemma FeedDescription(publicUrl: string, result: StrippedResult, feed: FeedMetadata,
               episode: EpisodeMetadata, wholeSeconds: nat)
    ensures Occurs(RssPieces[2] + (feed.description + RssPieces[3]), FeedFor(publicUrl, result, feed, episode, wholeSeconds))
  {
    FeedSubstitution(publicUrl, result, feed, episode, wholeSeconds, 2, RssPieces[2], feed.description, RssPieces[3]);
  }

  /** The channel is locked: `export` leaves `feedLocked` at its default. */
  lemma FeedLocked(publicUrl: string, result: StrippedResult, feed: FeedMetadata,
               episode: EpisodeMetadata, wholeSeconds: nat)
    ensures Occurs(RssPieces[8] + (DefaultFeedLocked + RssPieces[9]), FeedFor(publicUrl, result, feed, episode, wholeSeconds))
  {
    FeedSubstitution(publicUrl, result, feed, episode, wholeSeconds, 8, RssPieces[8], DefaultFeedLocked, RssPieces[9]);
  }

  /** The channel guid is the feed's guid followed by `-podcast-adblocker`. */
  lemma FeedGuid(publicUrl: string, result: StrippedResult, feed: FeedMetadata,
               episode: EpisodeMetadata, wholeSeconds: nat)
    ensures Occurs(RssPieces[9] + (feed.guid + RssPieces[10]), FeedFor(publicUrl, result, feed, episode, wholeSeconds))
  {
    FeedSubstitution(publicUrl, result, feed, episode, wholeSeconds, 9, RssPieces[9], feed.guid, RssPieces[10]);
  }

  /** The author is the feed's, wrapped in CDATA and followed by the item. */
  lemma FeedAuthor(publicUrl: string, result: StrippedResult, feed: FeedMetadata,
               episode: EpisodeMetadata, wholeSeconds: nat)
    ensures Occurs(RssPieces[10] + (feed.author + RssPieces[11]), FeedFor(publicUrl, result, feed, episode, wholeSeconds))
  {
    FeedSubstitution(publicUrl, result, feed, episode, wholeSeconds, 10, RssPieces[10], feed.author, RssPieces[11]);
  }

  /** The item's title is the episode's, verbatim. */
  lemma ItemTitle(publicUrl: string, result: StrippedResult, feed: FeedMetadata,
               episode: EpisodeMetadata, wholeSeconds: nat)
    ensures Occurs(RssPieces[11] + (episode.title + RssPieces[12]), FeedFor(publicUrl, result, feed, episode, wholeSeconds))
  {
    FeedSubstitution(publicUrl, result, feed, episode, wholeSeconds, 11, RssPieces[11], episode.title, RssPieces[12]);
  }

  /** The enclosure length is the byte length of the uploaded episode. */
  lemma EnclosureLength(publicUrl: string, result: StrippedResult, feed: FeedMetadata,
               episode: EpisodeMetadata, wholeSeconds: nat)
    ensures Occurs(RssPieces[12] + (NatToString(|result.podcast|) + RssPieces[13]), FeedFor(publicUrl, result, feed, episode, wholeSeconds))
  {
    FeedSubstitution(publicUrl, result, feed, episode, wholeSeconds, 12, RssPieces[12], NatToString(|result.podcast|), RssPieces[13]);
  }

  /** The enclosure is typed as MPEG audio. */
  lemma EnclosureType(publicUrl: string, result: StrippedResult, feed: FeedMetadata,
               episode: EpisodeMetadata, wholeSeconds: nat)
    ensures Occurs(RssPieces[13] + (AudioType + RssPieces[14]), FeedFor(publicUrl, result, feed, episode, wholeSeconds))
  {
    FeedSubstitution(publicUrl, result, feed, episode, wholeSeconds, 13, RssPieces[13], AudioType, RssPieces[14]);
  }

  /** The enclosure points at the episode's public URL, the key it is uploaded under. */
  lemma EnclosureUrl(publicUrl: string, result: StrippedResult, feed: FeedMetadata,
               episode: EpisodeMetadata, wholeSeconds: nat)
    ensures Occurs(RssPieces[14] + (PublicUrl(publicUrl, EpisodeKey(feed.guid, episode.guid)) + RssPieces[15]), FeedFor(publicUrl, result, feed, episode, wholeSeconds))
  {
    FeedSubstitution(publicUrl, result, feed, episode, wholeSeconds, 14, RssPieces[14], PublicUrl(publicUrl, EpisodeKey(feed.guid, episode.guid)), RssPieces[15]);
  }

  /** The item guid is the episode's guid followed by `-podcast-adblocker`. */
  lemma ItemGuid(publicUrl: string, result: StrippedResult, feed: FeedMetadata,
               episode: EpisodeMetadata, wholeSeconds: nat)
    ensures Occurs(RssPieces[15] + (episode.guid + RssPieces[16]), FeedFor(publicUrl, result, feed, episode, wholeSeconds))
  {
    FeedSubstitution(publicUrl, result, feed, episode, wholeSeconds, 15, RssPieces[15], episode.guid, RssPieces[16]);
  }

  /** The item duration is the episode's whole seconds. */
  lemma ItemDuration(publicUrl: string, result: StrippedResult, feed: FeedMetadata,
               episode: EpisodeMetadata, wholeSeconds: nat)
    ensures Occurs(RssPieces[19] + (NatToString(wholeSeconds) + RssPieces[20]), FeedFor(publicUrl, result, feed, episode, wholeSeconds))
  {
    FeedSubstitution(publicUrl, result, feed, episode, wholeSeconds, 19, RssPieces[19], NatToString(wholeSeconds), RssPieces[20]);
  }
}
