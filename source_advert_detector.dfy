/** source/advertDetector.ts, `OpenAIGPTAdvertDetector`.

    `_serialiseTextSegments` writes `<[s=S] T [e=E]>` tokens. After the model
    call, which is left out, `detectAdvertSegments` checks the parsed output
    against `{advertSegments: AdvertSegment[]}` and rejects an empty list. */
module SourceAdvertDetector {
  import opened Wrappers
  import opened Models
  import opened Text
  import opened SegmentTokens

  /** `AdvertSegmentSchema`: two numbers and a string, nothing about their order. */
  datatype AdvertSegment = AdvertSegment(startSeconds: int, endSeconds: int, description: string)

  function SerialiseTextSegments(textSegments: seq<TextSegment>): string
  {
    Serialise(textSegments, "")
  }

  /** Each segment's token gives back its times and its trimmed text, and the
      tokens follow the input order. */
  lemma SerialiseTextSegmentsTokens(textSegments: seq<TextSegment>, more: seq<TextSegment>)
    ensures forall i :: 0 <= i < |textSegments| ==>
              ParseToken(Token(textSegments[i], ""), "")
                == Some(TextSegment(textSegments[i].startSeconds, textSegments[i].endSeconds, Trim(textSegments[i].text)))
    ensures textSegments != [] && more != [] ==>
              SerialiseTextSegments(textSegments + more)
                == SerialiseTextSegments(textSegments) + " " + SerialiseTextSegments(more)
  {
    forall i | 0 <= i < |textSegments| {
      TokenRoundTrip(textSegments[i], "");
    }
    if textSegments != [] && more != [] {
      SerialiseAppend(textSegments, more, "");
    }
  }

  function AdvertSegmentOf(item: Json): (r: Option<AdvertSegment>)
    ensures r.Some? <==> (
              && item.JObject?
              && "startSeconds" in item.fields && item.fields["startSeconds"].JNumber?
              && "endSeconds" in item.fields && item.fields["endSeconds"].JNumber?
              && "description" in item.fields && item.fields["description"].JString?)
  {
    match item
    case JObject(f) =>
      if && "startSeconds" in f && f["startSeconds"].JNumber?
         && "endSeconds" in f && f["endSeconds"].JNumber?
         && "description" in f && f["description"].JString?
      then Some(AdvertSegment(f["startSeconds"].n, f["endSeconds"].n, f["description"].s))
      else None
    case _ => None
  }

  /** `z.array(AdvertSegmentSchema)`: every item must pass. */
  function AdvertSegmentsOf(items: seq<Json>): (r: Option<seq<AdvertSegment>>)
    ensures r.Some? <==> forall i :: 0 <= i < |items| ==> AdvertSegmentOf(items[i]).Some?
    ensures r.Some? ==> |r.value| == |items|
                        && forall i :: 0 <= i < |items| ==> r.value[i] == AdvertSegmentOf(items[i]).value
  {
    if items == [] then Some([])
    else
      match (AdvertSegmentOf(items[0]), AdvertSegmentsOf(items[1..]))
      case (Some(first), Some(rest)) => Some([first] + rest)
      case _ => None
  }

  const ParseFailedPrefix := "Failed to parse advert segments: "
  const NoAdvertsError := "No advert segments detected"

  /** The checks after the model call (source/advertDetector.ts:146-160), given
      `response.output_parsed` and the message zod would report for it. */
  function DetectAdvertSegments(outputParsed: Json, zodMessage: string): (r: Result<seq<AdvertSegment>>)
  {
    var items := if outputParsed.JObject? && "advertSegments" in outputParsed.fields
                    && outputParsed.fields["advertSegments"].JArray?
                 then Some(outputParsed.fields["advertSegments"].items) else None;
    match items
    case None => Failure(ParseFailedPrefix + zodMessage)
    case Some(items) =>
      match AdvertSegmentsOf(items)
      case None => Failure(ParseFailedPrefix + zodMessage)
      case Some(advertSegments) =>
        if |advertSegments| == 0 then Failure(NoAdvertsError) else Success(advertSegments)
  }

  /** The parsed output that carries `advertSegments`. */
  function OutputOf(advertSegments: seq<AdvertSegment>): Json
  {
    JObject(map["advertSegments" := JArray(seq(|advertSegments|, i requires 0 <= i < |advertSegments| =>
      JObject(map["startSeconds" := JNumber(advertSegments[i].startSeconds),
                  "endSeconds" := JNumber(advertSegments[i].endSeconds),
                  "description" := JString(advertSegments[i].description)])))])
  }

  /** Any non-empty list comes back unchanged, in order, whether or not its ranges
      are sorted, disjoint or even have start before end; the empty list is an
      error. */
  lemma DetectRoundTrip(advertSegments: seq<AdvertSegment>, zodMessage: string)
    ensures advertSegments != [] ==> DetectAdvertSegments(OutputOf(advertSegments), zodMessage) == Success(advertSegments)
    ensures advertSegments == [] ==> DetectAdvertSegments(OutputOf(advertSegments), zodMessage) == Failure(NoAdvertsError)
  {
    var items := OutputOf(advertSegments).fields["advertSegments"].items;
    assert forall i :: 0 <= i < |items| ==> AdvertSegmentOf(items[i]) == Some(advertSegments[i]);
    assert AdvertSegmentsOf(items).value == advertSegments;
  }

  /** The call succeeds exactly when the output has an `advertSegments` array whose
      every item passes the schema and which is not empty; it then returns the items
      in order. */
  lemma DetectSucceeds(outputParsed: Json, zodMessage: string)
    ensures var r := DetectAdvertSegments(outputParsed, zodMessage);
      r.Success? <==> (
        && outputParsed.JObject? && "advertSegments" in outputParsed.fields
        && outputParsed.fields["advertSegments"].JArray?
        && |outputParsed.fields["advertSegments"].items| > 0
        && forall i :: 0 <= i < |outputParsed.fields["advertSegments"].items| ==>
             AdvertSegmentOf(outputParsed.fields["advertSegments"].items[i]).Some?)
    ensures var r := DetectAdvertSegments(outputParsed, zodMessage);
      r.Success? ==> forall i :: 0 <= i < |r.value| ==>
        Some(r.value[i]) == AdvertSegmentOf(outputParsed.fields["advertSegments"].items[i])
    ensures var r := DetectAdvertSegments(outputParsed, zodMessage);
      r.Failure? ==> r.error == NoAdvertsError || r.error == ParseFailedPrefix + zodMessage
  {
  }
}
