/** The Whisper response as JavaScript sees it: truthiness, optional property
    access, and the word-to-segment step both TypeScript transcribers share, which
    reads `start`, `end` and `word` and lets zod check that the first two are
    numbers and the last a string. */
module Whisper {
  import opened Wrappers
  import opened Models

  /** JavaScript truthiness of a JSON value. */
  predicate Truthy(v: Json)
  {
    match v
    case JNull => false
    case JBool(b) => b
    case JNumber(n) => n != 0
    case JString(s) => s != ""
    case _ => true
  }

  /** `v?.key`, with `None` standing for `undefined`. */
  function Member(v: Option<Json>, key: string): (r: Option<Json>)
    ensures r.Some? ==> v.Some? && v.value.JObject? && key in v.value.fields
  {
    match v
    case Some(JObject(fields)) => if key in fields then Some(fields[key]) else None
    case _ => None
  }

  predicate TruthyMember(v: Option<Json>)
  {
    v.Some? && Truthy(v.value)
  }

  /** A runtime `TypeError`: a property read on `null`, or `map` on a non-array. */
  const TypeErrorMessage := "TypeError"
  /** A zod `ZodError`: a segment field of the wrong type. */
  const SchemaErrorMessage := "ZodError"

  /** `{startSeconds: word.start, endSeconds: word.end, text: word.word}` when zod
      accepts it. */
  function WordSegment(word: Json): (r: Option<TextSegment>)
    ensures r.Some? <==> (
              && word.JObject?
              && "start" in word.fields && word.fields["start"].JNumber?
              && "end" in word.fields && word.fields["end"].JNumber?
              && "word" in word.fields && word.fields["word"].JString?)
  {
    match word
    case JObject(f) =>
      if "start" in f && f["start"].JNumber? && "end" in f && f["end"].JNumber? && "word" in f && f["word"].JString?
      then Some(TextSegment(f["start"].n, f["end"].n, f["word"].s))
      else None
    case _ => None
  }

  /** The word list mapped and then parsed: a `null` word throws while mapping, any
      other malformed word fails the schema afterwards. */
  function ParseWords(words: seq<Json>): (r: Result<seq<TextSegment>>)
    ensures r.Success? <==> forall i :: 0 <= i < |words| ==> WordSegment(words[i]).Some?
    ensures r.Success? ==> |r.value| == |words|
                           && forall i :: 0 <= i < |words| ==> r.value[i] == WordSegment(words[i]).value
    ensures (exists i :: 0 <= i < |words| && words[i].JNull?) ==> r == Failure(TypeErrorMessage)
  {
    if exists i :: 0 <= i < |words| && words[i].JNull? then Failure(TypeErrorMessage)
    else
      var segments := MapWords(words);
      if segments.None? then Failure(SchemaErrorMessage) else Success(segments.value)
  }

  function MapWords(words: seq<Json>): (r: Option<seq<TextSegment>>)
    ensures r.Some? <==> forall i :: 0 <= i < |words| ==> WordSegment(words[i]).Some?
    ensures r.Some? ==> |r.value| == |words|
                        && forall i :: 0 <= i < |words| ==> r.value[i] == WordSegment(words[i]).value
  {
    if words == [] then Some([])
    else
      match (WordSegment(words[0]), MapWords(words[1..]))
      case (Some(first), Some(rest)) => Some([first] + rest)
      case _ => None
  }

  /** The word object a segment comes from. */
  function WordJson(segment: TextSegment): Json
  {
    JObject(map["start" := JNumber(segment.startSeconds), "end" := JNumber(segment.endSeconds),
                "word" := JString(segment.text)])
  }

  function WordsJson(segments: seq<TextSegment>): (words: seq<Json>)
    ensures |words| == |segments|
  {
    seq(|segments|, i requires 0 <= i < |segments| => WordJson(segments[i]))
  }

  /** Parsing the words of any segment list gives that list back. */
  lemma ParseWordsRoundTrip(segments: seq<TextSegment>)
    ensures ParseWords(WordsJson(segments)) == Success(segments)
  {
    var words := WordsJson(segments);
    forall i | 0 <= i < |words| ensures WordSegment(words[i]) == Some(segments[i]) {
      assert words[i] == WordJson(segments[i]);
    }
    assert !exists i :: 0 <= i < |words| && words[i].JNull?;
    assert ParseWords(words).value == segments;
  }
}
