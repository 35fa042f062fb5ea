/** src/advertStripper.ts, `AdvertStripperV1.stripAdverts`.

    The adverts are sorted on a copy. A cursor starts at 0; before each advert that
    starts after it a bounded keep filter is pushed, and the cursor is then set to
    that advert's end (not to a maximum). An open-ended tail from the cursor always
    follows. One keep filter is used as the whole graph; several are labelled and
    concatenated. Each advert is cut with `-ss <start> -t <length>`. */
module SrcAdvertStripper {
  import opened Wrappers
  import opened Models
  import opened Sorting
  import opened Numbers
  import opened Text
  import SourceAdvertStripper

  /** What one keep filter keeps: a bounded span, or everything from a time on. */
  datatype KeepSpan = Between(from: int, to: int) | From(from: int)

  predicate InSpan(t: int, span: KeepSpan)
  {
    match span
    case Between(from, to) => from <= t < to
    case From(from) => from <= t
  }

  ghost predicate InAnySpan(t: int, spans: seq<KeepSpan>)
  {
    exists k :: 0 <= k < |spans| && InSpan(t, spans[k])
  }

  /** The cursor after visiting `ads`: the end of the last one, or 0. */
  function CursorAfter(ads: seq<TimeRange>): (c: int)
    ensures ads == [] ==> c == 0
    ensures ads != [] ==> c == ads[|ads| - 1].endSeconds
  {
    if ads == [] then 0 else ads[|ads| - 1].endSeconds
  }

  /** The bounded spans pushed while visiting `ads`. */
  function CursorGaps(ads: seq<TimeRange>): seq<KeepSpan>
  {
    if ads == [] then []
    else
      var before, ad := ads[..|ads| - 1], ads[|ads| - 1];
      CursorGaps(before)
        + (if CursorAfter(before) < ad.startSeconds then [Between(CursorAfter(before), ad.startSeconds)] else [])
  }

  /** Every span the loop keeps, the open-ended tail last. */
  function KeepSpans(ads: seq<TimeRange>): seq<KeepSpan>
  {
    CursorGaps(ads) + [From(CursorAfter(ads))]
  }

  /** The text of one keep filter (src/advertStripper.ts:33, 38). */
  function KeepFilterText(span: KeepSpan): string
  {
    match span
    case Between(from, to) => KeepHead + (JsNumber(from) + ":end=" + (JsNumber(to) + KeepTail))
    case From(from) => KeepHead + (JsNumber(from) + KeepTail)
  }

  const KeepHead := "atrim=start="
  const KeepTail := ",asetpts=PTS-STARTPTS"

  function KeepFilters(ads: seq<TimeRange>): (filters: seq<string>)
    ensures |filters| == |KeepSpans(ads)|
  {
    var spans := KeepSpans(ads);
    seq(|spans|, i requires 0 <= i < |spans| => KeepFilterText(spans[i]))
  }

  /** The cursor loop of src/advertStripper.ts:28-38. */
  method BuildKeepFilters(ads: seq<TimeRange>) returns (keepFilters: seq<string>)
    ensures keepFilters == KeepFilters(ads)
  {
    keepFilters := [];
    var cursor := 0;
    for i := 0 to |ads|
      invariant |keepFilters| == |CursorGaps(ads[..i])|
      invariant forall k :: 0 <= k < |keepFilters| ==> keepFilters[k] == KeepFilterText(CursorGaps(ads[..i])[k])
      invariant cursor == CursorAfter(ads[..i])
    {
      var start, end := ads[i].startSeconds, ads[i].endSeconds;
      assert ads[..i + 1][..i] == ads[..i];
      if cursor < start {
        keepFilters := keepFilters + [KeepFilterText(Between(cursor, start))];
      }
      cursor := end;
    }
    assert ads[..|ads|] == ads;
    keepFilters := keepFilters + [KeepFilterText(From(cursor))];
  }

  /** Reads a keep filter back into its span. */
  function ParseKeepFilter(f: string): Option<KeepSpan>
  {
    if |f| < |KeepHead| || f[..|KeepHead|] != KeepHead then None
    else ParseKeepBody(f[|KeepHead|..])
  }

  /** Reads what follows `atrim=start=`: a bounded span when a `:end=` follows the
      start, an open-ended one otherwise. */
  function ParseKeepBody(rest: string): Option<KeepSpan>
  {
    var i := IndexOf(rest, ':');
    if i < |rest| then
      var afterFrom := rest[i..];
      if |afterFrom| < 5 || afterFrom[..5] != ":end=" then None
      else
        match (ParseJsNumber(rest[..i]), ParseTo(afterFrom[5..]))
        case (Some(from), Some(to)) => Some(Between(from, to))
        case _ => None
    else
      match ParseTo(rest)
      case Some(from) => Some(From(from))
      case None => None
  }

  lemma ParseKeepHead(rest: string)
    ensures ParseKeepFilter(KeepHead + rest) == ParseKeepBody(rest)
  {
    var f := KeepHead + rest;
    assert f[..|KeepHead|] == KeepHead && f[|KeepHead|..] == rest;
  }

  /** Reads `<number>,asetpts=PTS-STARTPTS`. */
  function ParseTo(s: string): Option<int>
  {
    var j := IndexOf(s, ',');
    if s[j..] != KeepTail then None else ParseJsNumber(s[..j])
  }

  lemma IndexOfSeparator(a: string, sep: string, b: string)
    requires AllNumberChars(a)
    requires |sep| > 0 && !IsNumberChar(sep[0])
    ensures IndexOf(a + sep + b, sep[0]) == |a|
    ensures (a + sep + b)[..|a|] == a && (a + sep + b)[|a|..] == sep + b
  {
    var s := a + sep + b;
    assert s[|a|] == sep[0];
  }

  lemma ParseToOf(n: string, v: int)
    requires AllNumberChars(n) && ParseJsNumber(n) == Some(v)
    ensures ParseTo(n + KeepTail) == Some(v)
  {
    IndexOfSeparator(n, KeepTail, "");
    assert n + KeepTail + "" == n + KeepTail;
  }

  lemma NoColonInNumberTail(n: string)
    requires AllNumberChars(n)
    ensures IndexOf(n + KeepTail, ':') == |n + KeepTail|
  {
    var s := n + KeepTail;
    assert forall k :: 0 <= k < |s| ==> s[k] != ':' by {
      forall k | 0 <= k < |s| ensures s[k] != ':' {
        if k < |n| { assert IsNumberChar(n[k]); } else { assert s[k] == KeepTail[k - |n|]; }
      }
    }
  }

  lemma ParseBetweenOf(a: string, b: string, from: int, to: int)
    requires AllNumberChars(a) && ParseJsNumber(a) == Some(from)
    requires AllNumberChars(b) && ParseJsNumber(b) == Some(to)
    ensures ParseKeepFilter(KeepHead + (a + ":end=" + (b + KeepTail))) == Some(Between(from, to))
  {
    var rest := a + ":end=" + (b + KeepTail);
    ParseKeepHead(rest);
    IndexOfSeparator(a, ":end=", b + KeepTail);
    assert rest[|a|..][..5] == ":end=" && rest[|a|..][5..] == b + KeepTail;
    ParseToOf(b, to);
  }

  lemma ParseFromOf(a: string, from: int)
    requires AllNumberChars(a) && ParseJsNumber(a) == Some(from)
    ensures ParseKeepFilter(KeepHead + (a + KeepTail)) == Some(From(from))
  {
    var rest := a + KeepTail;
    ParseKeepHead(rest);
    NoColonInNumberTail(a);
    ParseToOf(a, from);
  }

  /** Each keep filter names its span exactly, bounded or open-ended. */
  lemma KeepFilterRoundTrip(span: KeepSpan)
    ensures ParseKeepFilter(KeepFilterText(span)) == Some(span)
  {
    JsNumberRoundTrip(span.from);
    match span
    case Between(from, to) =>
      JsNumberRoundTrip(to);
      ParseBetweenOf(JsNumber(from), JsNumber(to), from, to);
    case From(from) =>
      ParseFromOf(JsNumber(from), from);
  }

  /** The keep list is never empty and holds at most one span per advert plus the
      tail, which is the only open-ended one. */
  lemma {:induction false} KeepSpansCount(ads: seq<TimeRange>)
    ensures |CursorGaps(ads)| <= |ads|
    ensures 1 <= |KeepSpans(ads)| <= |ads| + 1
    ensures forall k :: 0 <= k < |KeepSpans(ads)| ==> (KeepSpans(ads)[k].From? <==> k == |KeepSpans(ads)| - 1)
    ensures forall k :: 0 <= k < |CursorGaps(ads)| ==> CursorGaps(ads)[k].Between? && CursorGaps(ads)[k].from < CursorGaps(ads)[k].to
  {
    if ads != [] {
      KeepSpansCount(ads[..|ads| - 1]);
    }
  }

  /** The adverts that start after the cursor when the loop reaches them. */
  ghost function Openings(ads: seq<TimeRange>): set<int>
  {
    set i | 0 <= i < |ads| && CursorAfter(ads[..i]) < ads[i].startSeconds
  }

  /** There is one keep filter per advert that starts after the cursor when
      visited, plus the tail. */
  lemma {:induction false} KeepFiltersCountExact(ads: seq<TimeRange>)
    ensures |CursorGaps(ads)| == |Openings(ads)|
    ensures |KeepFilters(ads)| == 1 + |Openings(ads)|
  {
    if ads != [] {
      var n := |ads| - 1;
      var before := ads[..n];
      KeepFiltersCountExact(before);
      OpeningsStep(ads);
    }
  }

  lemma OpeningsStep(ads: seq<TimeRange>)
    requires ads != []
    ensures var n := |ads| - 1;
      |Openings(ads)| == |Openings(ads[..n])| + (if CursorAfter(ads[..n]) < ads[n].startSeconds then 1 else 0)
  {
    var n := |ads| - 1;
    var before := ads[..n];
    assert forall i :: 0 <= i < n ==> ads[..i] == before[..i] && ads[i] == before[i];
    var extra: set<int> := if CursorAfter(before) < ads[n].startSeconds then {n} else {};
    assert Openings(ads) == Openings(before) + extra;
    assert n !in Openings(before);
  }

  lemma {:induction false} CursorGapsCoverPoint(ads: seq<TimeRange>, t: int)
    requires !InAnyRange(t, ads) && t >= 0
    ensures t >= CursorAfter(ads) || InAnySpan(t, CursorGaps(ads))
  {
    if ads != [] {
      var before, ad := ads[..|ads| - 1], ads[|ads| - 1];
      assert forall i :: 0 <= i < |before| ==> before[i] == ads[i];
      assert !InRange(t, ad);
      CursorGapsCoverPoint(before, t);
      var g := CursorGaps(ads);
      if InAnySpan(t, CursorGaps(before)) {
        var k :| 0 <= k < |CursorGaps(before)| && InSpan(t, CursorGaps(before)[k]);
        assert g[k] == CursorGaps(before)[k];
      } else if t < ad.startSeconds {
        assert g[|CursorGaps(before)|] == Between(CursorAfter(before), ad.startSeconds);
      }
    }
  }

  /** Whatever order the adverts come in, every time from 0 on that lies in no
      advert is kept. */
  lemma KeepSpansCover(ads: seq<TimeRange>, t: int)
    requires !InAnyRange(t, ads) && t >= 0
    ensures InAnySpan(t, KeepSpans(ads))
  {
    CursorGapsCoverPoint(ads, t);
    var spans := KeepSpans(ads);
    if InAnySpan(t, CursorGaps(ads)) {
      var k :| 0 <= k < |CursorGaps(ads)| && InSpan(t, CursorGaps(ads)[k]);
      assert spans[k] == CursorGaps(ads)[k];
    } else {
      assert spans[|CursorGaps(ads)|] == From(CursorAfter(ads));
    }
  }

  ghost predicate EndsNondecreasing(ads: seq<TimeRange>)
  {
    forall i, j :: 0 <= i < j < |ads| ==> ads[i].endSeconds <= ads[j].endSeconds
  }

  function AsSpans(ranges: seq<TimeRange>): (spans: seq<KeepSpan>)
    ensures |spans| == |ranges|
    ensures forall k :: 0 <= k < |ranges| ==> spans[k] == Between(ranges[k].startSeconds, ranges[k].endSeconds)
  {
    seq(|ranges|, k requires 0 <= k < |ranges| => Between(ranges[k].startSeconds, ranges[k].endSeconds))
  }

  /** When no advert ends before an earlier one and no end is negative, the cursor
      is the running maximum of the later iteration and both keep the same bounded
      spans. */
  lemma {:induction false} CursorAgreesWithRunningEnd(ads: seq<TimeRange>)
    requires EndsNondecreasing(ads)
    requires forall i :: 0 <= i < |ads| ==> ads[i].endSeconds >= 0
    ensures CursorAfter(ads) == SourceAdvertStripper.RunningEnd(ads)
    ensures CursorGaps(ads) == AsSpans(SourceAdvertStripper.Gaps(ads))
  {
    if ads != [] {
      var before := ads[..|ads| - 1];
      assert forall i :: 0 <= i < |before| ==> before[i] == ads[i];
      CursorAgreesWithRunningEnd(before);
      if before != [] {
        assert before[|before| - 1].endSeconds <= ads[|ads| - 1].endSeconds;
      }
    }
  }

  /** Under the same condition and sorted by start, no keep span shares a time with
      an advert. */
  lemma KeepSpansAvoidAdverts(ads: seq<TimeRange>, t: int)
    requires SortedBy(ads, StartOf) && EndsNondecreasing(ads)
    requires forall i :: 0 <= i < |ads| ==> ads[i].endSeconds >= 0
    ensures InAnySpan(t, KeepSpans(ads)) ==> !InAnyRange(t, ads)
  {
    CursorAgreesWithRunningEnd(ads);
    SourceAdvertStripper.NonAdRangesAvoidAdverts(ads, 0);
    var spans := KeepSpans(ads);
    var gaps := SourceAdvertStripper.Gaps(ads);
    var keep := SourceAdvertStripper.NonAdRanges(ads, 0);
    if InAnySpan(t, spans) && InAnyRange(t, ads) {
      var k :| 0 <= k < |spans| && InSpan(t, spans[k]);
      var i :| 0 <= i < |ads| && InRange(t, ads[i]);
      if k < |gaps| {
        assert keep[k] == gaps[k];
        OverlapIfSharedPoint(t, keep[k], ads[i]);
      }
    }
  }

  /** The nested-advert case: an advert inside an earlier one moves the cursor back
      to its own end, and the open-ended tail then keeps audio that lies in the
      outer advert. */
  lemma NestedAdvertLeaks()
    ensures var ads := [TimeRange(1000, 5000), TimeRange(2000, 3000)];
      && SortedBy(ads, StartOf)
      && KeepSpans(ads) == [Between(0, 1000), From(3000)]
      && InSpan(4000, KeepSpans(ads)[1]) && InRange(4000, ads[0])
  {
    var ads := [TimeRange(1000, 5000), TimeRange(2000, 3000)];
    assert ads[..1][..0] == [] && ads[..1] == [TimeRange(1000, 5000)];
    assert CursorGaps(ads[..1]) == [Between(0, 1000)];
  }

  /** The corrected sweep (src/advertStripper.ts with the later iteration's running
      maximum): the same spans with the cursor replaced by the running end. */
  function FixedKeepSpans(ads: seq<TimeRange>): seq<KeepSpan>
  {
    AsSpans(SourceAdvertStripper.Gaps(ads)) + [From(SourceAdvertStripper.RunningEnd(ads))]
  }

  /** With the running maximum, sorted adverts never leak into a keep span, the
      nested case included, and every unadvertised time from 0 on is kept. */
  lemma FixedKeepSpansPartition(ads: seq<TimeRange>, t: int)
    requires SortedBy(ads, StartOf)
    ensures t >= 0 ==> (InAnySpan(t, FixedKeepSpans(ads)) <==> !InAnyRange(t, ads))
  {
    var spans := FixedKeepSpans(ads);
    var gaps := SourceAdvertStripper.Gaps(ads);
    var end := SourceAdvertStripper.RunningEnd(ads);
    var keep := SourceAdvertStripper.NonAdRanges(ads, end + t + 1);
    SourceAdvertStripper.NonAdRangesPartition(ads, end + t + 1, t);
    if t >= 0 {
      if InAnySpan(t, spans) {
        var k :| 0 <= k < |spans| && InSpan(t, spans[k]);
        if k < |gaps| {
          assert keep[k] == gaps[k];
        } else {
          assert keep[|gaps|] == TimeRange(end, end + t + 1);
        }
      }
      if InAnyRange(t, gaps) {
        var k :| 0 <= k < |gaps| && InRange(t, gaps[k]);
        assert InSpan(t, spans[k]);
      } else if InAnyRange(t, keep) {
        var k :| 0 <= k < |keep| && InRange(t, keep[k]);
        assert k == |gaps| by {
          forall j | 0 <= j < |gaps| ensures !InRange(t, keep[j]) {
            assert keep[j] == gaps[j];
          }
        }
        assert InSpan(t, spans[|gaps|]);
      }
    }
  }

  /** The `-filter_complex` argument (src/advertStripper.ts:40-49); the loop always
      produces at least the tail filter. */
  function FilterComplex(keepFilters: seq<string>): string
    requires |keepFilters| >= 1
  {
    if |keepFilters| > 1 then
      Join(Labelled(keepFilters), ";") + ";" + ConcatStage(|keepFilters|)
    else
      "[0:a]" + keepFilters[0] + "[out]"
  }

  /** `[seg0]...[seg<n-1>]concat=n=<n>:v=0:a=1[out]`. */
  function ConcatStage(n: nat): string
  {
    Join(SegLabels(n), "") + "concat=n=" + NatToString(n) + ":v=0:a=1[out]"
  }

  function SegLabels(n: nat): (labels: seq<string>)
    ensures |labels| == n
  {
    seq(n, i requires 0 <= i < n => "[seg" + NatToString(i) + "]")
  }

  function Labelled(keepFilters: seq<string>): (chains: seq<string>)
    ensures |chains| == |keepFilters|
    ensures forall i :: 0 <= i < |keepFilters| ==> chains[i] == "[0:a]" + keepFilters[i] + "[seg" + NatToString(i) + "]"
  {
    seq(|keepFilters|, i requires 0 <= i < |keepFilters| => "[0:a]" + keepFilters[i] + "[seg" + NatToString(i) + "]")
  }

  lemma LabelAvoidsSemicolon(i: nat)
    ensures ';' !in "[seg" + NatToString(i) + "]"
  {
    DigitsAvoidSemicolon(NatToString(i));
  }

  lemma BetweenAvoidsSemicolon(a: string, b: string)
    requires ';' !in a && ';' !in b
    ensures ';' !in KeepHead + (a + ":end=" + (b + KeepTail))
  {
  }

  lemma FromAvoidsSemicolon(a: string)
    requires ';' !in a
    ensures ';' !in KeepHead + (a + KeepTail)
  {
  }

  lemma KeepFilterAvoidsSemicolon(span: KeepSpan)
    ensures ';' !in KeepFilterText(span)
  {
    var a := JsNumber(span.from);
    NumberAvoidsSemicolon(a);
    match span
    case Between(_, to) =>
      var b := JsNumber(to);
      NumberAvoidsSemicolon(b);
      BetweenAvoidsSemicolon(a, b);
    case From(_) =>
      FromAvoidsSemicolon(a);
  }

  lemma ChainAvoidsSemicolon(f: string, i: nat)
    requires ';' !in f
    ensures ';' !in "[0:a]" + f + "[seg" + NatToString(i) + "]"
  {
    LabelAvoidsSemicolon(i);
  }

  lemma ConcatStageAvoidsSemicolon(n: nat)
    ensures ';' !in ConcatStage(n)
  {
    var labels := SegLabels(n);
    forall k | 0 <= k < |labels| ensures ';' !in labels[k] { LabelAvoidsSemicolon(k); }
    JoinAvoids(labels, "", ';');
    var d := NatToString(n);
    assert forall k :: 0 <= k < |d| ==> d[k] != ';' by {
      forall k | 0 <= k < |d| ensures d[k] != ';' { assert IsDigit(d[k]); }
    }
  }

  /** For several filters free of `;`, splitting the graph at `;` gives back each
      labelled chain in order and then the concat stage. */
  lemma FilterComplexSplit(kf: seq<string>)
    requires |kf| > 1
    requires forall i :: 0 <= i < |kf| ==> ';' !in kf[i]
    ensures Split(FilterComplex(kf), ';')
      == Labelled(kf) + [ConcatStage(|kf|)]
  {
    var chains := Labelled(kf);
    var last := ConcatStage(|kf|);
    forall k | 0 <= k < |chains| ensures ';' !in chains[k] {
      ChainAvoidsSemicolon(kf[k], k);
    }
    ConcatStageAvoidsSemicolon(|kf|);
    JoinAppend(chains, [last], ";");
    assert Join([last], ";") == last;
    SplitJoin(chains + [last], ';');
  }

  /** The keep filters the loop builds never contain `;`, so the graph splits back
      into one labelled chain per keep span and the concat stage. */
  lemma FilterComplexChains(ads: seq<TimeRange>)
    requires |KeepFilters(ads)| > 1
    ensures var kf := KeepFilters(ads);
      Split(FilterComplex(kf), ';')
        == Labelled(kf) + [ConcatStage(|kf|)]
  {
    var kf := KeepFilters(ads);
    forall k | 0 <= k < |kf| ensures ';' !in kf[k] {
      KeepFilterAvoidsSemicolon(KeepSpans(ads)[k]);
    }
    FilterComplexSplit(kf);
  }

  /** The options of one advert cut (src/advertStripper.ts:58-63). */
  function AdvertOptions(ad: TimeRange): (options: seq<string>)
    ensures |options| == 4 && options[0] == "-ss" && options[2] == "-t"
  {
    ["-ss", JsNumber(ad.startSeconds), "-t", JsNumber(ad.endSeconds - ad.startSeconds)]
  }

  /** The cut starts at the advert's start and lasts until its end. */
  lemma AdvertOptionsRoundTrip(ad: TimeRange)
    ensures var options := AdvertOptions(ad);
      && ParseJsNumber(options[1]) == Some(ad.startSeconds)
      && ParseJsNumber(options[3]) == Some(ad.endSeconds - ad.startSeconds)
  {
    JsNumberRoundTrip(ad.startSeconds);
    JsNumberRoundTrip(ad.endSeconds - ad.startSeconds);
  }

  /** What one run hands to ffmpeg. */
  datatype StripPlan = StripPlan(filterComplex: string, advertOptions: seq<seq<string>>)

  /** `stripAdverts`: the caller's array is copied, the copy sorted, and both the
      keep filters and the advert cuts follow the sorted order. */
  method StripAdverts(advertRanges: array<TimeRange>) returns (plan: StripPlan)
    ensures var ads := SortByKey(advertRanges[..], StartOf);
      && plan.filterComplex == FilterComplex(KeepFilters(ads))
      && |plan.advertOptions| == |ads|
      && forall i :: 0 <= i < |ads| ==> plan.advertOptions[i] == AdvertOptions(ads[i])
  {
    var copy := new TimeRange[advertRanges.Length];
    forall i | 0 <= i < advertRanges.Length {
      copy[i] := advertRanges[i];
    }
    assert copy[..] == advertRanges[..];
    SortInPlace(copy, StartOf);
    var ads := copy[..];
    var keepFilters := BuildKeepFilters(ads);
    var options := [];
    for i := 0 to |ads|
      invariant |options| == i
      invariant forall k :: 0 <= k < i ==> options[k] == AdvertOptions(ads[k])
    {
      options := options + [AdvertOptions(ads[i])];
    }
    plan := StripPlan(FilterComplex(keepFilters), options);
  }
}
