/** src/advertDetector.ts, `OpenAIGPTAdvertDetector`.

    `_serialiseTextSegments` writes `< [s=S] T [e=E] >` tokens, with a space
    inside each angle bracket. After the model call, which is left out,
    `detectAdvertSegments` checks the parsed output against
    `{timeRanges: TimeRange[]}` and returns the list as it is, empty or not. */
module SrcAdvertDetector {
  import opened Wrappers
  import opened Models
  import opened Text
  import opened SegmentTokens

  function SerialiseTextSegments(textSegments: seq<TextSegment>): string
  {
    Serialise(textSegments, " ")
  }

  /** Each segment's token gives back its times and its trimmed text, and the
      tokens follow the input order. */
  lemma SerialiseTextSegmentsTokens(textSegments: seq<TextSegment>, more: seq<TextSegment>)
    ensures forall i :: 0 <= i < |textSegments| ==>
              ParseToken(Token(textSegments[i], " "), " ")
                == Some(TextSegment(textSegments[i].startSeconds, textSegments[i].endSeconds, Trim(textSegments[i].text)))
    ensures textSegments != [] && more != [] ==>
              SerialiseTextSegments(textSegments + more)
                == SerialiseTextSegments(textSegments) + " " + SerialiseTextSegments(more)
  {
    forall i | 0 <= i < |textSegments| {
      TokenRoundTrip(textSegments[i], " ");
    }
    if textSegments != [] && more != [] {
      SerialiseAppend(textSegments, more, " ");
    }
  }

  /** No token of this iteration is a token of the other one: the space after `<`
      tells them apart. */
  lemma TokenFormatsDiffer(a: TextSegment, b: TextSegment)
    ensures Token(a, " ") != Token(b, "")
  {
    TokenOpening(a, " ");
    TokenOpening(b, "");
    assert Head(" ")[1] == ' ' && Head("")[1] == '[';
    assert Token(a, " ")[1] == Head(" ")[1];
    assert Token(b, "")[1] == Head("")[1];
  }

  function TimeRangeOf(item: Json): (r: Option<TimeRange>)
    ensures r.Some? <==> (
              && item.JObject?
              && "startSeconds" in item.fields && item.fields["startSeconds"].JNumber?
              && "endSeconds" in item.fields && item.fields["endSeconds"].JNumber?)
  {
    match item
    case JObject(f) =>
      if "startSeconds" in f && f["startSeconds"].JNumber? && "endSeconds" in f && f["endSeconds"].JNumber?
      then Some(TimeRange(f["startSeconds"].n, f["endSeconds"].n))
      else None
    case _ => None
  }

  /** `z.array(TimeRangeSchema)`: every item must pass. */
  function TimeRangesOf(items: seq<Json>): (r: Option<seq<TimeRange>>)
    ensures r.Some? <==> forall i :: 0 <= i < |items| ==> TimeRangeOf(items[i]).Some?
    ensures r.Some? ==> |r.value| == |items|
                        && forall i :: 0 <= i < |items| ==> r.value[i] == TimeRangeOf(items[i]).value
  {
    if items == [] then Some([])
    else
      match (TimeRangeOf(items[0]), TimeRangesOf(items[1..]))
      case (Some(first), Some(rest)) => Some([first] + rest)
      case _ => None
  }

  const ParseFailedPrefix := "Failed to parse advert segments: "

  /** The checks after the model call (src/advertDetector.ts:100-108), given
      `response.output_parsed` and the message zod would report for it. */
  function DetectAdvertSegments(outputParsed: Json, zodMessage: string): (r: Result<seq<TimeRange>>)
  {
    var items := if outputParsed.JObject? && "timeRanges" in outputParsed.fields
                    && outputParsed.fields["timeRanges"].JArray?
                 then Some(outputParsed.fields["timeRanges"].items) else None;
    match items
    case None => Failure(ParseFailedPrefix + zodMessage)
    case Some(items) =>
      match TimeRangesOf(items)
      case None => Failure(ParseFailedPrefix + zodMessage)
      case Some(timeRanges) => Success(timeRanges)
  }

  function OutputOf(timeRanges: seq<TimeRange>): Json
  {
    JObject(map["timeRanges" := JArray(seq(|timeRanges|, i requires 0 <= i < |timeRanges| =>
      JObject(map["startSeconds" := JNumber(timeRanges[i].startSeconds),
                  "endSeconds" := JNumber(timeRanges[i].endSeconds)])))])
  }

  /** Every list comes back unchanged, the empty one included, whatever the order
      or direction of its ranges. */
  lemma DetectRoundTrip(timeRanges: seq<TimeRange>, zodMessage: string)
    ensures DetectAdvertSegments(OutputOf(timeRanges), zodMessage) == Success(timeRanges)
  {
    var items := OutputOf(timeRanges).fields["timeRanges"].items;
    assert forall i :: 0 <= i < |items| ==> TimeRangeOf(items[i]) == Some(timeRanges[i]);
    assert TimeRangesOf(items).value == timeRanges;
  }

  /** The call succeeds exactly when the output has a `timeRanges` array whose every
      item passes the schema, and then returns the items in order; otherwise it
      reports the parse failure. */
  lemma DetectSucceeds(outputParsed: Json, zodMessage: string)
    ensures var r := DetectAdvertSegments(outputParsed, zodMessage);
      r.Success? <==> (
        && outputParsed.JObject? && "timeRanges" in outputParsed.fields
        && outputParsed.fields["timeRanges"].JArray?
        && forall i :: 0 <= i < |outputParsed.fields["timeRanges"].items| ==>
             TimeRangeOf(outputParsed.fields["timeRanges"].items[i]).Some?)
    ensures var r := DetectAdvertSegments(outputParsed, zodMessage);
      r.Success? ==> (
        && |r.value| == |outputParsed.fields["timeRanges"].items|
        && forall i :: 0 <= i < |r.value| ==>
             Some(r.value[i]) == TimeRangeOf(outputParsed.fields["timeRanges"].items[i]))
    ensures var r := DetectAdvertSegments(outputParsed, zodMessage);
      r.Failure? ==> r.error == ParseFailedPrefix + zodMessage
  {
  }
}
