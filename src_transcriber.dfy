/** src/transcriber.ts, `CloudflareWhisperTranscriber.transcribe`.

    The Workers AI call is left out; its result is the input (`None` for
    `undefined`). The words of every segment are flattened in order into text
    segments. */
module SrcTranscriber {
  import opened Wrappers
  import opened Models
  import opened Lists
  import opened Whisper

  const InvalidResponseError := "Invalid response from Whisper API"
  const NoSegmentsError := "No transcription segments found"

  /** `segment.words` when it is an array to `map` over. */
  function SegmentWords(segment: Json): (r: Option<seq<Json>>)
    ensures r.Some? <==> segment.JObject? && "words" in segment.fields && segment.fields["words"].JArray?
  {
    match segment
    case JObject(f) => if "words" in f && f["words"].JArray? then Some(f["words"].items) else None
    case _ => None
  }

  /** The words of every segment, segment after segment; a segment without a word
      array throws. */
  function AllWords(segments: seq<Json>): (r: Option<seq<Json>>)
    ensures r.Some? <==> forall k :: 0 <= k < |segments| ==> SegmentWords(segments[k]).Some?
  {
    if segments == [] then Some([])
    else
      match (AllWords(segments[..|segments| - 1]), SegmentWords(segments[|segments| - 1]))
      case (Some(earlier), Some(words)) => Some(earlier + words)
      case _ => None
  }

  /** The word array of every segment, empty for a segment without one. */
  function WordLists(segments: seq<Json>): (lists: seq<seq<Json>>)
    ensures |lists| == |segments|
  {
    seq(|segments|, k requires 0 <= k < |segments| => SegmentWords(segments[k]).GetOr([]))
  }

  lemma {:induction false} AllWordsFlatten(segments: seq<Json>)
    requires forall k :: 0 <= k < |segments| ==> SegmentWords(segments[k]).Some?
    ensures AllWords(segments) == Some(Flatten(WordLists(segments)))
  {
    if segments != [] {
      var before := segments[..|segments| - 1];
      AllWordsFlatten(before);
      assert WordLists(segments)[..|segments| - 1] == WordLists(before);
    }
  }

  function Transcribe(res: Option<Json>): (r: Result<seq<TextSegment>>)
    ensures r.Success? ==> |r.value| >= 1
  {
    var segments := Member(res, "segments");
    if !TruthyMember(res) || !TruthyMember(segments) || !segments.value.JArray? then Failure(InvalidResponseError)
    else
      match AllWords(segments.value.items)
      case None => Failure(TypeErrorMessage)
      case Some(words) =>
        match ParseWords(words)
        case Failure(e) => Failure(e)
        case Success(transcription) =>
          if |transcription| == 0 then Failure(NoSegmentsError) else Success(transcription)
  }

  /** A result with no `segments` array is rejected before anything is read. */
  lemma InvalidResponse(res: Option<Json>)
    requires res.None? || !Truthy(res.value) || !res.value.JObject? || "segments" !in res.value.fields
             || !res.value.fields["segments"].JArray?
    ensures Transcribe(res) == Failure(InvalidResponseError)
  {
  }

  /** The `segments` array of a response, empty when there is none. */
  function SegmentsOf(res: Option<Json>): seq<Json>
  {
    var segments := Member(res, "segments");
    if segments.Some? && segments.value.JArray? then segments.value.items else []
  }

  /** A successful call parses exactly the flattened words of its segments, every
      one of which has a word array. */
  lemma TranscribeParsesAllWords(res: Option<Json>)
    requires Transcribe(res).Success?
    ensures forall i :: 0 <= i < |SegmentsOf(res)| ==> SegmentWords(SegmentsOf(res)[i]).Some?
    ensures ParseWords(Flatten(WordLists(SegmentsOf(res)))) == Transcribe(res)
  {
    AllWordsFlatten(SegmentsOf(res));
  }

  /** A successful call returns as many text segments as there are words. */
  lemma TranscribeLength(res: Option<Json>)
    requires Transcribe(res).Success?
    ensures forall i :: 0 <= i < |SegmentsOf(res)| ==> SegmentWords(SegmentsOf(res)[i]).Some?
    ensures |Transcribe(res).value| == TotalLength(WordLists(SegmentsOf(res)))
  {
    TranscribeParsesAllWords(res);
    FlattenLength(WordLists(SegmentsOf(res)));
  }

  /** A successful call returns word `j` of segment `k` right after the words of the
      segments before it. */
  lemma TranscribeFlattens(res: Option<Json>, transcription: seq<TextSegment>, k: nat, j: nat)
    requires Transcribe(res) == Success(transcription)
    ensures var lists := WordLists(SegmentsOf(res));
      k < |lists| && j < |lists[k]| ==>
        var at := |Flatten(lists[..k])| + j;
        at < |transcription| && Some(transcription[at]) == WordSegment(lists[k][j])
  {
    TranscribeParsesAllWords(res);
    ParsedFlatIndex(WordLists(SegmentsOf(res)), transcription, k, j);
  }

  lemma ParsedFlatIndex(lists: seq<seq<Json>>, transcription: seq<TextSegment>, k: nat, j: nat)
    requires ParseWords(Flatten(lists)) == Success(transcription)
    ensures k < |lists| && j < |lists[k]| ==>
      var at := |Flatten(lists[..k])| + j;
      at < |transcription| && Some(transcription[at]) == WordSegment(lists[k][j])
  {
    if k < |lists| && j < |lists[k]| {
      FlattenIndex(lists, k, j);
      ParsedWordAt(Flatten(lists), transcription, |Flatten(lists[..k])| + j);
    }
  }

  lemma ParsedWordAt(words: seq<Json>, transcription: seq<TextSegment>, i: nat)
    requires ParseWords(words) == Success(transcription) && i < |words|
    ensures i < |transcription| && Some(transcription[i]) == WordSegment(words[i])
  {
  }

  /** A response whose segments hold the given word lists. */
  function ResponseOf(wordLists: seq<seq<TextSegment>>): Json
  {
    JObject(map["segments" := JArray(seq(|wordLists|, k requires 0 <= k < |wordLists| =>
      JObject(map["words" := JArray(WordsJson(wordLists[k]))])))])
  }

  /** Segments whose words are all empty give no transcription, an error; otherwise
      the words come back flattened in order. */
  lemma TranscribeRoundTrip(wordLists: seq<seq<TextSegment>>)
    ensures Flatten(wordLists) == [] ==> Transcribe(Some(ResponseOf(wordLists))) == Failure(NoSegmentsError)
    ensures Flatten(wordLists) != [] ==> Transcribe(Some(ResponseOf(wordLists))) == Success(Flatten(wordLists))
  {
    var segments := ResponseOf(wordLists).fields["segments"].items;
    var jsonLists := seq(|wordLists|, k requires 0 <= k < |wordLists| => WordsJson(wordLists[k]));
    assert WordLists(segments) == jsonLists;
    AllWordsFlatten(segments);
    FlattenWords(wordLists);
    ParseWordsRoundTrip(Flatten(wordLists));
    TranscribeOf(segments, WordsJson(Flatten(wordLists)), Flatten(wordLists));
  }

  lemma TranscribeOf(segments: seq<Json>, words: seq<Json>, transcription: seq<TextSegment>)
    requires AllWords(segments) == Some(words) && ParseWords(words) == Success(transcription)
    ensures var res := Some(JObject(map["segments" := JArray(segments)]));
      Transcribe(res) == if transcription == [] then Failure(NoSegmentsError) else Success(transcription)
  {
    var res := Some(JObject(map["segments" := JArray(segments)]));
    assert Member(res, "segments") == Some(JArray(segments));
  }

  lemma {:induction false} FlattenWords(wordLists: seq<seq<TextSegment>>)
    ensures Flatten(seq(|wordLists|, k requires 0 <= k < |wordLists| => WordsJson(wordLists[k])))
            == WordsJson(Flatten(wordLists))
  {
    if wordLists != [] {
      var n := |wordLists| - 1;
      FlattenWords(wordLists[..n]);
      var jsonLists := seq(|wordLists|, k requires 0 <= k < |wordLists| => WordsJson(wordLists[k]));
      assert jsonLists[..n] == seq(n, k requires 0 <= k < n => WordsJson(wordLists[..n][k]));
      WordsJsonAppend(Flatten(wordLists[..n]), wordLists[n]);
    }
  }

  lemma WordsJsonAppend(a: seq<TextSegment>, b: seq<TextSegment>)
    ensures WordsJson(a + b) == WordsJson(a) + WordsJson(b)
  {
  }
}
