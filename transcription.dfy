/** src/transcription.py, the end of `GoogleCloudTranscriber.transcribe`.

    The upload, the batch recognition and the download are left out: the batch
    response and the downloaded transcript JSON are inputs. A missing key is
    `None`, so `dict.get` with a default becomes `GetOr`. */
module Transcription {
  import opened Wrappers
  import opened Text

  datatype WordInfo = WordInfo(word: Option<string>, startOffset: Option<string>)
  datatype Alternative = Alternative(words: Option<seq<WordInfo>>)
  datatype SpeechResult = SpeechResult(alternatives: Option<seq<Alternative>>)
  datatype TranscriptData = TranscriptData(results: Option<seq<SpeechResult>>)

  /** `f"{w.get('word', '')}<{w.get('startOffset', '0s')}>"`. */
  function WordText(w: WordInfo): string
  {
    w.word.GetOr("") + "<" + w.startOffset.GetOr("0s") + ">"
  }

  /** One line: the words of an alternative separated by single spaces. */
  function Line(words: seq<WordInfo>): string
  {
    Join(seq(|words|, i requires 0 <= i < |words| => WordText(words[i])), " ")
  }

  /** The lines of one result: one per alternative that has `words`, in order. */
  function AlternativeLines(alternatives: seq<Alternative>): seq<string>
  {
    if alternatives == [] then []
    else
      var last := alternatives[|alternatives| - 1];
      AlternativeLines(alternatives[..|alternatives| - 1])
        + (if last.words.Some? then [Line(last.words.value)] else [])
  }

  /** Every line, results first, then alternatives within a result. */
  function Lines(results: seq<SpeechResult>): seq<string>
  {
    if results == [] then []
    else
      Lines(results[..|results| - 1]) + AlternativeLines(results[|results| - 1].alternatives.GetOr([]))
  }

  /** The loops of src/transcription.py:83-93. */
  method BuildTranscript(transcriptData: TranscriptData) returns (fullTranscript: string)
    ensures fullTranscript == Join(Lines(transcriptData.results.GetOr([])), "\n")
  {
    var results := transcriptData.results.GetOr([]);
    var lines: seq<string> := [];
    for r := 0 to |results|
      invariant lines == Lines(results[..r])
    {
      var alternatives := results[r].alternatives.GetOr([]);
      assert results[..r + 1][..r] == results[..r];
      var before := lines;
      for a := 0 to |alternatives|
        invariant lines == before + AlternativeLines(alternatives[..a])
      {
        assert alternatives[..a + 1][..a] == alternatives[..a];
        var alt := alternatives[a];
        if alt.words.Some? {
          var words := alt.words.value;
          var line := Line(words);
          lines := lines + [line];
        }
      }
      assert alternatives[..|alternatives|] == alternatives;
    }
    assert results[..|results|] == results;
    fullTranscript := Join(lines, "\n");
  }

  /** Reads a rendered word back: the text before the first `<`, and the offset
      between it and the closing `>`. */
  function ParseWordText(s: string): Option<(string, string)>
  {
    var i := IndexOf(s, '<');
    if i == |s| || s[|s| - 1] != '>' || i + 1 > |s| - 1 then None
    else Some((s[..i], s[i + 1..|s| - 1]))
  }

  /** A word without `<` renders to a text that gives back the word and the offset,
      `''` and `'0s'` standing in for missing ones. */
  lemma WordTextRoundTrip(w: WordInfo)
    requires '<' !in w.word.GetOr("")
    ensures ParseWordText(WordText(w)) == Some((w.word.GetOr(""), w.startOffset.GetOr("0s")))
  {
    var a, b := w.word.GetOr(""), w.startOffset.GetOr("0s");
    var s := WordText(w);
    assert s == a + "<" + b + ">";
    assert s[|a|] == '<';
    assert forall k :: 0 <= k < |a| ==> s[k] != '<' by {
      forall k | 0 <= k < |a| ensures s[k] != '<' { assert s[k] == a[k]; }
    }
    assert s[..|a|] == a && s[|a| + 1..|s| - 1] == b;
  }

  /** A transcript whose words and offsets hold no line break splits back into its
      lines, one per alternative that has words; no lines at all, as when
      `results` is missing, give the empty transcript. */
  lemma TranscriptLines(results: seq<SpeechResult>)
    requires forall i :: 0 <= i < |results| ==> AlternativesNoBreak(results[i].alternatives.GetOr([]))
    ensures Lines(results) == [] ==> Join(Lines(results), "\n") == ""
    ensures Lines(results) != [] ==> Split(Join(Lines(results), "\n"), '\n') == Lines(results)
  {
    var lines := Lines(results);
    LinesHaveNoBreak(results);
    if lines != [] {
      SplitJoin(lines, '\n');
    }
  }

  predicate NoBreak(w: WordInfo)
  {
    '\n' !in w.word.GetOr("") && '\n' !in w.startOffset.GetOr("0s")
  }

  predicate WordsNoBreak(words: seq<WordInfo>)
  {
    forall k :: 0 <= k < |words| ==> NoBreak(words[k])
  }

  predicate AlternativesNoBreak(alternatives: seq<Alternative>)
  {
    forall j :: 0 <= j < |alternatives| ==> WordsNoBreak(alternatives[j].words.GetOr([]))
  }

  lemma LineHasNoBreak(words: seq<WordInfo>)
    requires WordsNoBreak(words)
    ensures '\n' !in Line(words)
  {
    var texts := seq(|words|, i requires 0 <= i < |words| => WordText(words[i]));
    forall i | 0 <= i < |texts| ensures '\n' !in texts[i] {
      assert texts[i] == words[i].word.GetOr("") + "<" + words[i].startOffset.GetOr("0s") + ">";
    }
    JoinAvoids(texts, " ", '\n');
  }

  lemma {:induction false} AlternativeLinesHaveNoBreak(alternatives: seq<Alternative>)
    requires AlternativesNoBreak(alternatives)
    ensures forall l :: 0 <= l < |AlternativeLines(alternatives)| ==> '\n' !in AlternativeLines(alternatives)[l]
  {
    if alternatives != [] {
      var last := alternatives[|alternatives| - 1];
      AlternativeLinesHaveNoBreak(alternatives[..|alternatives| - 1]);
      if last.words.Some? {
        LineHasNoBreak(last.words.value);
      }
    }
  }

  lemma {:induction false} LinesHaveNoBreak(results: seq<SpeechResult>)
    requires forall i :: 0 <= i < |results| ==> AlternativesNoBreak(results[i].alternatives.GetOr([]))
    ensures forall l :: 0 <= l < |Lines(results)| ==> '\n' !in Lines(results)[l]
  {
    if results != [] {
      var n := |results| - 1;
      LinesHaveNoBreak(results[..n]);
      AlternativeLinesHaveNoBreak(results[n].alternatives.GetOr([]));
    }
  }

  const NoResponseError := "No transcription response received"
  const NoResultsError := "No transcription results found"

  /** The batch response's `results`, in iteration order, as (file, transcript uri)
      pairs; `None` for a response that is missing or has nothing set. */
  type BatchResults = seq<(string, string)>

  /** The checks of src/transcription.py:65-72: the uri of the first file's
      transcript. */
  function FirstTranscriptUri(response: Option<BatchResults>): (r: Result<string>)
    ensures response.None? <==> r == Failure(NoResponseError)
    ensures response.Some? && response.value == [] <==> r == Failure(NoResultsError)
    ensures r.Success? <==> response.Some? && response.value != []
    ensures r.Success? ==> r.value == response.value[0].1
  {
    match response
    case None => Failure(NoResponseError)
    case Some(results) => if results == [] then Failure(NoResultsError) else Success(results[0].1)
  }
}
