/** source/transcriber.ts, `CloudflareWhisperTranscriber`.

    `transcribe` turns one Whisper response into segments; the HTTP call is left
    out and its status and parsed body are inputs. `transcribeMultiple` transcribes
    the chunks one after another, shifts each chunk's segments by a nominal offset
    of `audioBufferLengthMinutes * 60` seconds per chunk, and appends them. */
module SourceTranscriber {
  import opened Wrappers
  import opened Models
  import opened Lists
  import opened Whisper

  const RequestFailedPrefix := "Transcription request failed: "
  const NoWordsError := "Transcription failed or no words found"
  const NoSegmentsError := "No transcription segments found"

  /** `transcribe` given `response.ok`, `response.statusText` and the parsed body. */
  function Transcribe(ok: bool, statusText: string, body: Json): (r: Result<seq<TextSegment>>)
    ensures !ok ==> r == Failure(RequestFailedPrefix + statusText)
    ensures r.Success? ==> |r.value| >= 1
  {
    if !ok then Failure(RequestFailedPrefix + statusText)
    else if body.JNull? then Failure(TypeErrorMessage)
    else
      var words := Member(Member(Some(body), "result"), "words");
      if !TruthyMember(Member(Some(body), "success")) || !TruthyMember(words) then Failure(NoWordsError)
      else if !words.value.JArray? then Failure(TypeErrorMessage)
      else
        match ParseWords(words.value.items)
        case Failure(e) => Failure(e)
        case Success(segments) => if |segments| == 0 then Failure(NoSegmentsError) else Success(segments)
  }

  /** A successful response carrying `segments` as its words. */
  function ResponseBody(segments: seq<TextSegment>): Json
  {
    JObject(map["success" := JBool(true), "result" := JObject(map["words" := JArray(WordsJson(segments))])])
  }

  /** A successful response hands back exactly the words it carries, in order, as
      long as there is at least one; an empty word list (which JavaScript treats as
      present) is reported as no segments. */
  lemma TranscribeRoundTrip(segments: seq<TextSegment>, statusText: string)
    ensures segments != [] ==> Transcribe(true, statusText, ResponseBody(segments)) == Success(segments)
    ensures segments == [] ==> Transcribe(true, statusText, ResponseBody(segments)) == Failure(NoSegmentsError)
  {
    ParseWordsRoundTrip(segments);
  }

  /** A successful call had a truthy `success` and a truthy array of words, every
      one of them well formed, and returns one segment per word in order. */
  lemma TranscribeSuccess(ok: bool, statusText: string, body: Json)
    requires Transcribe(ok, statusText, body).Success?
    ensures ok && body.JObject?
    ensures TruthyMember(Member(Some(body), "success"))
    ensures var words := Member(Member(Some(body), "result"), "words");
      && words.Some? && words.value.JArray?
      && |words.value.items| == |Transcribe(ok, statusText, body).value| >= 1
      && forall i :: 0 <= i < |words.value.items| ==>
           WordSegment(words.value.items[i]) == Some(Transcribe(ok, statusText, body).value[i])
  {
  }

  /** Every segment of chunk `k` moved by `offset`. */
  function Shift(segments: seq<TextSegment>, offset: int): (shifted: seq<TextSegment>)
    ensures |shifted| == |segments|
  {
    seq(|segments|, i requires 0 <= i < |segments| =>
      TextSegment(segments[i].startSeconds + offset, segments[i].endSeconds + offset, segments[i].text))
  }

  /** Shifting keeps each segment's text and length, and shifting back undoes it. */
  lemma ShiftKeepsTextAndLength(segments: seq<TextSegment>, offset: int)
    ensures forall i :: 0 <= i < |segments| ==>
              && Shift(segments, offset)[i].text == segments[i].text
              && Shift(segments, offset)[i].endSeconds - Shift(segments, offset)[i].startSeconds
                 == segments[i].endSeconds - segments[i].startSeconds
              && Shift(segments, offset)[i].startSeconds == segments[i].startSeconds + offset
    ensures Shift(Shift(segments, offset), -offset) == segments
  {
  }

  /** The offset added to chunk `k`, in hundredths: `k * minutes * 60` seconds. */
  function ChunkOffset(k: nat, minutes: int): int
  {
    k * minutes * 60 * 100
  }

  const DefaultBufferLengthMinutes := 15
  /** The chunk length the downloader asks ffmpeg's segment muxer for. */
  const ChunkDurationSeconds := 900

  /** What `transcribeMultiple` returns for the per-chunk outcomes of `transcribe`:
      the first failure, or every chunk's segments shifted into place. */
  function Reconcile(transcripts: seq<Result<seq<TextSegment>>>, minutes: int): Result<seq<TextSegment>>
  {
    if transcripts == [] then Success([])
    else
      var k := |transcripts| - 1;
      match Reconcile(transcripts[..k], minutes)
      case Failure(e) => Failure(e)
      case Success(earlier) =>
        match transcripts[k]
        case Failure(e) => Failure(e)
        case Success(segments) => Success(earlier + Shift(segments, ChunkOffset(k, minutes)))
  }

  /** The loop of source/transcriber.ts:55-72. The chunks are transcribed one after
      another, so the outcome of each is an input, and the first failure ends the
      loop. */
  method TranscribeMultiple(transcripts: seq<Result<seq<TextSegment>>>, audioBufferLengthMinutes: int)
    returns (r: Result<seq<TextSegment>>)
    ensures r == Reconcile(transcripts, audioBufferLengthMinutes)
  {
    var allSegments: seq<TextSegment> := [];
    var offset := 0;
    for k := 0 to |transcripts|
      invariant Reconcile(transcripts[..k], audioBufferLengthMinutes) == Success(allSegments)
      invariant offset == ChunkOffset(k, audioBufferLengthMinutes)
    {
      assert transcripts[..k + 1][..k] == transcripts[..k];
      if transcripts[k].Failure? {
        r := Failure(transcripts[k].error);
        assert transcripts[..k + 1] <= transcripts;
        FailureSticks(transcripts, k + 1, audioBufferLengthMinutes);
        return;
      }
      var segments := transcripts[k].value;
      var adjustedSegments := Shift(segments, offset);
      allSegments := allSegments + adjustedSegments;
      offset := offset + audioBufferLengthMinutes * 60 * 100;
    }
    assert transcripts[..|transcripts|] == transcripts;
    r := Success(allSegments);
  }

  /** Once a prefix fails, every longer prefix fails the same way. */
  lemma {:induction false} FailureSticks(transcripts: seq<Result<seq<TextSegment>>>, n: nat, minutes: int)
    requires n <= |transcripts|
    requires Reconcile(transcripts[..n], minutes).Failure?
    ensures Reconcile(transcripts, minutes) == Reconcile(transcripts[..n], minutes)
    decreases |transcripts| - n
  {
    if n < |transcripts| {
      assert transcripts[..n + 1][..n] == transcripts[..n];
      FailureSticks(transcripts, n + 1, minutes);
    } else {
      assert transcripts[..n] == transcripts;
    }
  }

  /** When chunk `k` is the first to fail, its error is the result: no later chunk
      is looked at. */
  lemma FirstFailureWins(transcripts: seq<Result<seq<TextSegment>>>, minutes: int, k: nat)
    requires k < |transcripts| && transcripts[k].Failure?
    requires forall i :: 0 <= i < k ==> transcripts[i].Success?
    ensures Reconcile(transcripts, minutes) == Failure(transcripts[k].error)
  {
    var before := transcripts[..k];
    assert forall i :: 0 <= i < k ==> before[i] == transcripts[i];
    ReconcileSucceeds(before, minutes);
    assert transcripts[..k + 1][..k] == before;
    FailureSticks(transcripts, k + 1, minutes);
  }

  function Successes(transcripts: seq<Result<seq<TextSegment>>>, minutes: int): (parts: seq<seq<TextSegment>>)
    requires forall k :: 0 <= k < |transcripts| ==> transcripts[k].Success?
    ensures |parts| == |transcripts|
  {
    seq(|transcripts|, k requires 0 <= k < |transcripts| => Shift(transcripts[k].value, ChunkOffset(k, minutes)))
  }

  /** The reconciled list succeeds exactly when every chunk does; it is then each
      chunk's segments shifted by that chunk's offset, chunk after chunk, so its
      length is the sum of the chunks' lengths and no chunks give no segments. */
  lemma {:induction false} ReconcileSucceeds(transcripts: seq<Result<seq<TextSegment>>>, minutes: int)
    ensures Reconcile(transcripts, minutes).Success? <==> forall k :: 0 <= k < |transcripts| ==> transcripts[k].Success?
    ensures Reconcile(transcripts, minutes).Success? ==>
              Reconcile(transcripts, minutes).value == Flatten(Successes(transcripts, minutes))
    ensures transcripts == [] ==> Reconcile(transcripts, minutes) == Success([])
  {
    if transcripts != [] {
      var k := |transcripts| - 1;
      var before := transcripts[..k];
      assert forall i :: 0 <= i < k ==> before[i] == transcripts[i];
      ReconcileSucceeds(before, minutes);
      if Reconcile(transcripts, minutes).Success? {
        var parts := Successes(transcripts, minutes);
        assert parts[..k] == Successes(before, minutes);
      }
    }
  }

  /** Segment `j` of chunk `k` lands right after the earlier chunks' segments, at
      its own times plus `k` nominal chunk lengths. */
  lemma ReconcileIndex(transcripts: seq<Result<seq<TextSegment>>>, minutes: int, k: nat, j: nat)
    requires forall i :: 0 <= i < |transcripts| ==> transcripts[i].Success?
    requires k < |transcripts| && j < |transcripts[k].value|
    ensures Reconcile(transcripts, minutes).Success?
    ensures var out, earlier := Reconcile(transcripts, minutes).value, Flatten(Successes(transcripts, minutes)[..k]);
      && |earlier| + j < |out|
      && out[|earlier| + j]
         == TextSegment(transcripts[k].value[j].startSeconds + ChunkOffset(k, minutes),
                        transcripts[k].value[j].endSeconds + ChunkOffset(k, minutes),
                        transcripts[k].value[j].text)
  {
    ReconcileSucceeds(transcripts, minutes);
    FlattenIndex(Successes(transcripts, minutes), k, j);
  }

  /** Where the chunks really start, given their actual lengths. */
  function ActualStart(lengths: seq<int>, k: nat): int
    requires k <= |lengths|
  {
    if k == 0 then 0 else ActualStart(lengths, k - 1) + lengths[k - 1]
  }

  /** The nominal offsets put every chunk at its real start exactly when every chunk
      but the last is exactly the nominal length; the offset never looks at the
      chunk itself. */
  lemma {:induction false} OffsetsExact(lengths: seq<int>, minutes: int)
    requires |lengths| > 0
    ensures (forall k :: 0 <= k < |lengths| ==> ActualStart(lengths, k) == ChunkOffset(k, minutes))
        <==> (forall i :: 0 <= i < |lengths| - 1 ==> lengths[i] == minutes * 60 * 100)
  {
    var step := minutes * 60 * 100;
    if forall i :: 0 <= i < |lengths| - 1 ==> lengths[i] == step {
      forall k | 0 <= k < |lengths| ensures ActualStart(lengths, k) == ChunkOffset(k, minutes) {
        NominalPrefix(lengths, minutes, k);
      }
    }
    if forall k :: 0 <= k < |lengths| ==> ActualStart(lengths, k) == ChunkOffset(k, minutes) {
      forall i | 0 <= i < |lengths| - 1 ensures lengths[i] == step {
        assert ActualStart(lengths, i + 1) == ActualStart(lengths, i) + lengths[i];
        assert ChunkOffset(i + 1, minutes) == ChunkOffset(i, minutes) + step;
      }
    }
  }

  lemma {:induction false} NominalPrefix(lengths: seq<int>, minutes: int, k: nat)
    requires k <= |lengths|
    requires forall i :: 0 <= i < k ==> lengths[i] == minutes * 60 * 100
    ensures ActualStart(lengths, k) == ChunkOffset(k, minutes)
  {
    if k > 0 {
      NominalPrefix(lengths, minutes, k - 1);
      assert ChunkOffset(k, minutes) == ChunkOffset(k - 1, minutes) + minutes * 60 * 100;
    }
  }
  /** With the default of 15 minutes and the downloader's 900-second chunks,
      every chunk but the last being full length, segment `j` of chunk `k`
      lands at its own start plus the true start of chunk `k` in the episode. */
  lemma DefaultOffsetIsChunkStart(transcripts: seq<Result<seq<TextSegment>>>, lengths: seq<int>, k: nat, j: nat)
    requires forall i :: 0 <= i < |transcripts| ==> transcripts[i].Success?
    requires |lengths| == |transcripts|
    requires forall i :: 0 <= i < |lengths| - 1 ==> lengths[i] == ChunkDurationSeconds * 100
    requires k < |transcripts| && j < |transcripts[k].value|
    ensures Reconcile(transcripts, DefaultBufferLengthMinutes).Success?
    ensures var out := Reconcile(transcripts, DefaultBufferLengthMinutes).value;
      var at := |Flatten(Successes(transcripts, DefaultBufferLengthMinutes)[..k])| + j;
      && at < |out|
      && out[at].startSeconds == transcripts[k].value[j].startSeconds + ActualStart(lengths, k)
  {
    ReconcileIndex(transcripts, DefaultBufferLengthMinutes, k, j);
    NominalPrefix(lengths, DefaultBufferLengthMinutes, k);
  }
}
