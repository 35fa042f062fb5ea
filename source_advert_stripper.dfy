/** source/advertStripper.ts, `FfmpegAdvertStripper.stripAdverts`.

    The adverts are sorted in place by start; a sweep keeps `lastEnd`, the running
    maximum of advert ends, and pushes a keep range before each advert that starts
    after it and a tail up to the probed duration. The keep ranges become one
    `atrim` chain each, concatenated into `[out]`; each advert becomes one clip. */
module SourceAdvertStripper {
  import opened Wrappers
  import opened Models
  import opened Sorting
  import opened Numbers
  import opened Text

  /** `lastEnd` after the sweep has visited `ads`: the largest advert end, or 0. */
  function RunningEnd(ads: seq<TimeRange>): (e: int)
    ensures e >= 0
    ensures forall i :: 0 <= i < |ads| ==> ads[i].endSeconds <= e
    ensures e == 0 || exists i :: 0 <= i < |ads| && ads[i].endSeconds == e
  {
    if ads == [] then 0
    else
      var before := ads[..|ads| - 1];
      assert forall i :: 0 <= i < |before| ==> before[i] == ads[i];
      Max(RunningEnd(before), ads[|ads| - 1].endSeconds)
  }

  /** The ranges the sweep pushes while visiting `ads`, before the tail. */
  function Gaps(ads: seq<TimeRange>): seq<TimeRange>
  {
    if ads == [] then []
    else
      var before, ad := ads[..|ads| - 1], ads[|ads| - 1];
      Gaps(before)
        + (if ad.startSeconds > RunningEnd(before) then [TimeRange(RunningEnd(before), ad.startSeconds)] else [])
  }

  /** The keep ranges for adverts visited in the order of `ads` and a probed duration. */
  function NonAdRanges(ads: seq<TimeRange>, duration: int): seq<TimeRange>
  {
    var lastEnd := RunningEnd(ads);
    Gaps(ads) + (if lastEnd < duration then [TimeRange(lastEnd, duration)] else [])
  }

  /** The sweep of source/advertStripper.ts:52-62. */
  method SweepNonAdRanges(ads: seq<TimeRange>, duration: int) returns (nonAdRanges: seq<TimeRange>)
    ensures nonAdRanges == NonAdRanges(ads, duration)
  {
    nonAdRanges := [];
    var lastEnd := 0;
    for i := 0 to |ads|
      invariant nonAdRanges == Gaps(ads[..i])
      invariant lastEnd == RunningEnd(ads[..i])
    {
      var ad := ads[i];
      assert ads[..i + 1][..i] == ads[..i];
      if ad.startSeconds > lastEnd {
        nonAdRanges := nonAdRanges + [TimeRange(lastEnd, ad.startSeconds)];
      }
      lastEnd := Max(lastEnd, ad.endSeconds);
    }
    assert ads[..|ads|] == ads;
    if lastEnd < duration {
      nonAdRanges := nonAdRanges + [TimeRange(lastEnd, duration)];
    }
  }

  /** The gaps start at or after 0 and are non-empty. */
  lemma {:induction false} GapsPositive(ads: seq<TimeRange>)
    ensures forall k :: 0 <= k < |Gaps(ads)| ==> 0 <= Gaps(ads)[k].startSeconds < Gaps(ads)[k].endSeconds
  {
    if ads != [] {
      GapsPositive(ads[..|ads| - 1]);
    }
  }

  /** With well-formed adverts the gaps ascend and end by `lastEnd`. */
  lemma {:induction false} GapsAscending(ads: seq<TimeRange>)
    requires forall i :: 0 <= i < |ads| ==> WellFormed(ads[i])
    ensures Ascending(Gaps(ads))
    ensures forall k :: 0 <= k < |Gaps(ads)| ==> Gaps(ads)[k].endSeconds <= RunningEnd(ads)
  {
    if ads != [] {
      var before := ads[..|ads| - 1];
      assert forall i :: 0 <= i < |before| ==> before[i] == ads[i];
      GapsAscending(before);
    }
  }

  /** With sorted adverts no gap ends after the last advert starts. */
  lemma {:induction false} GapsBeforeLastStart(ads: seq<TimeRange>)
    requires SortedBy(ads, StartOf) && |ads| > 0
    ensures forall k :: 0 <= k < |Gaps(ads)| ==> Gaps(ads)[k].endSeconds <= ads[|ads| - 1].startSeconds
  {
    var before, ad := ads[..|ads| - 1], ads[|ads| - 1];
    if |before| > 0 {
      assert forall i :: 0 <= i < |before| ==> before[i] == ads[i];
      assert SortedBy(before, StartOf);
      GapsBeforeLastStart(before);
      assert before[|before| - 1].startSeconds <= ad.startSeconds;
    }
  }


  /** At most one keep range per advert, plus the tail. */
  lemma {:induction false} NonAdRangesCount(ads: seq<TimeRange>, duration: int)
    ensures |Gaps(ads)| <= |ads|
    ensures |NonAdRanges(ads, duration)| <= |ads| + 1
  {
    if ads != [] {
      NonAdRangesCount(ads[..|ads| - 1], duration);
    }
  }

  /** When the adverts cover the whole episode no keep range is left, and the
      filter graph concatenates nothing. */
  lemma AllAdvertFilter(duration: int)
    requires duration > 0
    ensures NonAdRanges([TimeRange(0, duration)], duration) == []
    ensures FullFilter([]) == "; concat=n=0:v=0:a=1[out]"
  {
    var ads := [TimeRange(0, duration)];
    assert ads[..0] == [];
    assert RunningEnd(ads) == duration;
    assert Gaps(ads) == [];
  }

  /** Nothing is clamped to the duration: an advert that starts after the episode
      ends leaves a single keep range running past the end, and no tail. */
  lemma AdvertPastEndNotClamped(duration: int, ad: TimeRange)
    requires 0 < duration < ad.startSeconds <= ad.endSeconds
    ensures NonAdRanges([ad], duration) == [TimeRange(0, ad.startSeconds)]
    ensures NonAdRanges([ad], duration)[0].endSeconds > duration
  {
    var ads := [ad];
    assert ads[..0] == [];
    assert RunningEnd(ads) == ad.endSeconds;
    assert Gaps(ads) == [TimeRange(0, ad.startSeconds)];
  }

  /** Every keep range is non-empty and starts at or after 0. */
  lemma NonAdRangesNonEmpty(ads: seq<TimeRange>, duration: int)
    ensures forall k :: 0 <= k < |NonAdRanges(ads, duration)| ==>
              0 <= NonAdRanges(ads, duration)[k].startSeconds < NonAdRanges(ads, duration)[k].endSeconds
  {
    GapsPositive(ads);
  }

  /** With well-formed adverts the keep ranges are strictly ascending and pairwise
      disjoint. */
  lemma NonAdRangesAscending(ads: seq<TimeRange>, duration: int)
    requires forall i :: 0 <= i < |ads| ==> WellFormed(ads[i])
    ensures Ascending(NonAdRanges(ads, duration))
  {
    GapsAscending(ads);
  }

  lemma {:induction false} GapsAvoidAdverts(ads: seq<TimeRange>)
    requires SortedBy(ads, StartOf)
    ensures forall k, i :: 0 <= k < |Gaps(ads)| && 0 <= i < |ads| ==> !Overlap(Gaps(ads)[k], ads[i])
  {
    if ads != [] {
      var before, ad := ads[..|ads| - 1], ads[|ads| - 1];
      assert forall i :: 0 <= i < |before| ==> before[i] == ads[i];
      assert SortedBy(before, StartOf);
      GapsAvoidAdverts(before);
      if |before| > 0 {
        GapsBeforeLastStart(before);
        assert before[|before| - 1].startSeconds <= ad.startSeconds;
      }
    }
  }

  /** With adverts sorted by start, as the sweep visits them, no keep range shares a
      time with any advert. */
  lemma NonAdRangesAvoidAdverts(ads: seq<TimeRange>, duration: int)
    requires SortedBy(ads, StartOf)
    ensures forall k, i :: 0 <= k < |NonAdRanges(ads, duration)| && 0 <= i < |ads| ==>
              !Overlap(NonAdRanges(ads, duration)[k], ads[i])
  {
    GapsAvoidAdverts(ads);
  }

  lemma {:induction false} GapsCoverPoint(ads: seq<TimeRange>, t: int)
    requires 0 <= t && !InAnyRange(t, ads)
    ensures t >= RunningEnd(ads) || InAnyRange(t, Gaps(ads))
  {
    if ads != [] {
      var before, ad := ads[..|ads| - 1], ads[|ads| - 1];
      assert forall i :: 0 <= i < |before| ==> before[i] == ads[i];
      assert !InRange(t, ad);
      GapsCoverPoint(before, t);
      var g := Gaps(ads);
      if InAnyRange(t, Gaps(before)) {
        var k :| 0 <= k < |Gaps(before)| && InRange(t, Gaps(before)[k]);
        assert g[k] == Gaps(before)[k];
      } else if t < RunningEnd(ads) {
        assert g[|Gaps(before)|] == TimeRange(RunningEnd(before), ad.startSeconds);
      }
    }
  }

  /** Every time in [0, duration) that lies in no advert lies in a keep range,
      whatever order the adverts come in. */
  lemma NonAdRangesCover(ads: seq<TimeRange>, duration: int, t: int)
    requires 0 <= t < duration && !InAnyRange(t, ads)
    ensures InAnyRange(t, NonAdRanges(ads, duration))
  {
    GapsCoverPoint(ads, t);
    var r := NonAdRanges(ads, duration);
    if InAnyRange(t, Gaps(ads)) {
      var k :| 0 <= k < |Gaps(ads)| && InRange(t, Gaps(ads)[k]);
      assert r[k] == Gaps(ads)[k];
    } else {
      assert r[|Gaps(ads)|] == TimeRange(RunningEnd(ads), duration);
    }
  }

  /** For sorted adverts the keep ranges and the adverts split [0, duration): a time
      there is kept exactly when no advert holds it, and no time before 0 is kept.
      Nothing is clamped to the duration, so keep ranges may reach past it. */
  lemma NonAdRangesPartition(ads: seq<TimeRange>, duration: int, t: int)
    requires SortedBy(ads, StartOf)
    ensures 0 <= t < duration ==> (InAnyRange(t, NonAdRanges(ads, duration)) <==> !InAnyRange(t, ads))
    ensures t < 0 ==> !InAnyRange(t, NonAdRanges(ads, duration))
  {
    var r := NonAdRanges(ads, duration);
    NonAdRangesNonEmpty(ads, duration);
    NonAdRangesAvoidAdverts(ads, duration);
    if InAnyRange(t, r) && InAnyRange(t, ads) {
      var k :| 0 <= k < |r| && InRange(t, r[k]);
      var i :| 0 <= i < |ads| && InRange(t, ads[i]);
      OverlapIfSharedPoint(t, r[k], ads[i]);
    }
    if 0 <= t < duration && !InAnyRange(t, ads) {
      NonAdRangesCover(ads, duration, t);
    }
  }

  /** One `atrim` chain per keep range, labelled `a<i>` (source/advertStripper.ts:64-66). */
  function TrimFilter(range: TimeRange, i: nat): string
  {
    TrimHead + (JsNumber(range.startSeconds) + ":end="
      + (JsNumber(range.endSeconds) + TrimMiddle + (NatToString(i) + "]")))
  }

  /** The fixed text around the numbers of one `atrim` chain. */
  const TrimHead := "[0:a]atrim=start="
  const TrimMiddle := ",asetpts=PTS-STARTPTS[a"

  /** Reads back one `atrim` chain: its keep range and its label number. */
  function ParseTrimFilter(f: string): Option<(TimeRange, nat)>
  {
    if |f| < |TrimHead| || f[..|TrimHead|] != TrimHead then None
    else
      var rest := f[|TrimHead|..];
      var i := IndexOf(rest, ':');
      var afterStart := rest[i..];
      if |afterStart| < 5 || afterStart[..5] != ":end=" then None
      else
        match (ParseJsNumber(rest[..i]), ParseTrimEnd(afterStart[5..]))
        case (Some(s), Some((e, n))) => Some((TimeRange(s, e), n))
        case _ => None
  }

  /** Reads `<end>,asetpts=PTS-STARTPTS[a<n>]`. */
  function ParseTrimEnd(rest: string): Option<(int, nat)>
  {
    var j := IndexOf(rest, ',');
    var tail := rest[j..];
    if |tail| < |TrimMiddle| + 1 || tail[..|TrimMiddle|] != TrimMiddle || tail[|tail| - 1] != ']' then None
    else
      match (ParseJsNumber(rest[..j]), ParseNat(tail[|TrimMiddle|..|tail| - 1]))
      case (Some(e), Some(n)) => Some((e, n))
      case _ => None
  }

  /** A number followed by a separator starting with a non-number character: the
      first such character is where the number stops. */
  lemma IndexOfPast(a: string, sep: string, b: string)
    requires forall k :: 0 <= k < |a| ==> IsNumberChar(a[k])
    requires |sep| > 0 && !IsNumberChar(sep[0])
    ensures IndexOf(a + sep + b, sep[0]) == |a|
    ensures (a + sep + b)[..|a|] == a && (a + sep + b)[|a|..] == sep + b
  {
    var s := a + sep + b;
    assert s[|a|] == sep[0];
  }

  lemma TrimEndOf(e: string, n: string, end: int, labelNumber: nat)
    requires AllNumberChars(e) && ParseJsNumber(e) == Some(end) && ParseNat(n) == Some(labelNumber)
    ensures ParseTrimEnd(e + TrimMiddle + (n + "]")) == Some((end, labelNumber))
  {
    var rest := e + TrimMiddle + (n + "]");
    IndexOfPast(e, TrimMiddle, n + "]");
    var tail := TrimMiddle + (n + "]");
    assert rest[|e|..] == tail;
    assert tail[|TrimMiddle|..|tail| - 1] == n;
  }

  lemma TrimFilterOf(s: string, rest2: string, start: int, tail: (int, nat))
    requires AllNumberChars(s) && ParseJsNumber(s) == Some(start) && ParseTrimEnd(rest2) == Some(tail)
    ensures ParseTrimFilter(TrimHead + (s + ":end=" + rest2)) == Some((TimeRange(start, tail.0), tail.1))
  {
    var rest := s + ":end=" + rest2;
    var f := TrimHead + rest;
    assert f[..|TrimHead|] == TrimHead && f[|TrimHead|..] == rest;
    IndexOfPast(s, ":end=", rest2);
    var afterStart := rest[|s|..];
    assert afterStart[..5] == ":end=" && afterStart[5..] == rest2;
  }

  /** Each `atrim` chain names its keep range and its label exactly. */
  lemma TrimFilterRoundTrip(range: TimeRange, i: nat)
    ensures ParseTrimFilter(TrimFilter(range, i)) == Some((range, i))
  {
    var s, e, n := JsNumber(range.startSeconds), JsNumber(range.endSeconds), NatToString(i);
    JsNumberRoundTrip(range.startSeconds);
    JsNumberRoundTrip(range.endSeconds);
    NatToStringRoundTrip(i);
    TrimEndOf(e, n, range.endSeconds, i);
    var rest2 := e + TrimMiddle + (n + "]");
    TrimFilterOf(s, rest2, range.startSeconds, (range.endSeconds, i));
  }

  function TrimFilters(ranges: seq<TimeRange>): (filters: seq<string>)
    ensures |filters| == |ranges|
  {
    seq(|ranges|, i requires 0 <= i < |ranges| => TrimFilter(ranges[i], i))
  }

  /** `[a0][a1]...[a<n-1>]`, the inputs of the concat filter. */
  function ConcatInputs(n: nat): string
  {
    Join(seq(n, i requires 0 <= i < n => "[a" + NatToString(i) + "]"), "")
  }

  /** The last stage of the graph: the concat filter over all the chains' labels. */
  function ConcatFilter(n: nat): string
  {
    ConcatInputs(n) + "concat=n=" + NatToString(n) + ":v=0:a=1[out]"
  }

  /** The `-filter_complex` argument (source/advertStripper.ts:64-68). */
  function FullFilter(ranges: seq<TimeRange>): string
  {
    Join(TrimFilters(ranges), "; ") + "; " + ConcatFilter(|ranges|)
  }

  /** Each stage with the space that the `"; "` before it leaves once the graph
      is split at `;`. */
  function Spaced(stages: seq<string>): seq<string>
  {
    seq(|stages|, i requires 0 <= i < |stages| => " " + stages[i])
  }

  lemma {:induction false} SpacedJoin(stages: seq<string>)
    requires |stages| > 0
    ensures " " + Join(stages, "; ") == Join(Spaced(stages), ";")
  {
    if |stages| > 1 {
      SpacedJoin(stages[1..]);
      assert Spaced(stages)[1..] == Spaced(stages[1..]);
      calc {
        " " + Join(stages, "; ");
        " " + (stages[0] + "; " + Join(stages[1..], "; "));
        (" " + stages[0]) + ";" + (" " + Join(stages[1..], "; "));
        Spaced(stages)[0] + ";" + Join(Spaced(stages)[1..], ";");
      }
    }
  }

  lemma ChainAvoidsSemicolon(a: string, b: string, n: string)
    requires ';' !in a && ';' !in b && ';' !in n
    ensures ';' !in TrimHead + (a + ":end=" + (b + TrimMiddle + (n + "]")))
  {
  }

  lemma TrimFilterAvoidsSemicolon(range: TimeRange, i: nat)
    ensures ';' !in TrimFilter(range, i)
  {
    var a, b, n := JsNumber(range.startSeconds), JsNumber(range.endSeconds), NatToString(i);
    NumberAvoidsSemicolon(a);
    NumberAvoidsSemicolon(b);
    DigitsAvoidSemicolon(n);
    ChainAvoidsSemicolon(a, b, n);
  }

  lemma TrimFiltersAvoidSemicolon(ranges: seq<TimeRange>)
    ensures forall i :: 0 <= i < |TrimFilters(ranges)| ==> ';' !in TrimFilters(ranges)[i]
  {
    forall i | 0 <= i < |ranges|
      ensures ';' !in TrimFilters(ranges)[i]
    {
      TrimFilterAvoidsSemicolon(ranges[i], i);
    }
  }

  lemma ConcatFilterAvoidsSemicolon(n: nat)
    ensures ';' !in ConcatFilter(n)
  {
    var labels := seq(n, i requires 0 <= i < n => "[a" + NatToString(i) + "]");
    forall i | 0 <= i < n
      ensures ';' !in labels[i]
    {
      DigitsAvoidSemicolon(NatToString(i));
    }
    JoinAvoids(labels, "", ';');
    DigitsAvoidSemicolon(NatToString(n));
  }

  /** A stage free of `;` followed by `"; "` and more such stages splits back
      into the first stage and the spaced later ones. */
  lemma SplitStages(first: string, rest: seq<string>)
    requires |rest| > 0 && ';' !in first
    requires forall i :: 0 <= i < |rest| ==> ';' !in rest[i]
    ensures Split(first + "; " + Join(rest, "; "), ';') == [first] + Spaced(rest)
  {
    SpacedJoin(rest);
    var spaced := Spaced(rest);
    assert forall i :: 0 <= i < |spaced| ==> ';' !in spaced[i] by {
      forall i | 0 <= i < |spaced| ensures ';' !in spaced[i] { assert spaced[i] == " " + rest[i]; }
    }
    SplitJoin(spaced, ';');
    assert first + "; " + Join(rest, "; ") == first + [';'] + Join(spaced, [';']);
    SplitFirstPiece(first, ';', Join(spaced, [';']));
  }

  /** Appending a last stage to a non-empty join, seen from its first stage. */
  lemma JoinLastStage(tf: seq<string>, c: string)
    requires |tf| > 0
    ensures Join(tf, "; ") + "; " + c == tf[0] + "; " + Join(tf[1..] + [c], "; ")
  {
    JoinAppend(tf, [c], "; ");
    assert tf + [c] == [tf[0]] + (tf[1..] + [c]);
    assert (tf + [c])[1..] == tf[1..] + [c];
  }

  /** Split at `;`, the graph gives back its stages in order: the first `atrim`
      chain, every later chain and then the concat stage, each after the space
      that `"; "` leaves. With no keep ranges the first stage is empty and the
      concat joins nothing. */
  lemma FullFilterSplit(ranges: seq<TimeRange>)
    ensures ranges == [] ==> Split(FullFilter(ranges), ';') == ["", " " + ConcatFilter(0)]
    ensures ranges != [] ==>
              Split(FullFilter(ranges), ';')
                == [TrimFilters(ranges)[0]] + Spaced(TrimFilters(ranges)[1..] + [ConcatFilter(|ranges|)])
  {
    var c := ConcatFilter(|ranges|);
    ConcatFilterAvoidsSemicolon(|ranges|);
    if ranges == [] {
      assert FullFilter(ranges) == "" + "; " + Join([c], "; ");
      SplitStages("", [c]);
    } else {
      var tf := TrimFilters(ranges);
      TrimFiltersAvoidSemicolon(ranges);
      JoinLastStage(tf, c);
      var rest := tf[1..] + [c];
      assert forall i :: 0 <= i < |rest| ==> ';' !in rest[i] by {
        forall i | 0 <= i < |rest| ensures ';' !in rest[i] {
          if i < |rest| - 1 { assert rest[i] == tf[i + 1]; }
        }
      }
      SplitStages(tf[0], rest);
    }
  }

  /** One advert clip: `setStartTime(start)` and `setDuration(duration)`. */
  datatype AdvertClip = AdvertClip(startTime: int, duration: int)

  /** The advert loop of source/advertStripper.ts:83-102: one clip per advert, in
      the order of `ads`, covering exactly that advert. */
  method PlanAdvertClips(ads: seq<TimeRange>) returns (clips: seq<AdvertClip>)
    ensures |clips| == |ads|
    ensures forall i :: 0 <= i < |ads| ==>
              clips[i].startTime == ads[i].startSeconds
              && clips[i].startTime + clips[i].duration == ads[i].endSeconds
  {
    clips := [];
    for i := 0 to |ads|
      invariant |clips| == i
      invariant forall k :: 0 <= k < i ==>
                  clips[k].startTime == ads[k].startSeconds
                  && clips[k].startTime + clips[k].duration == ads[k].endSeconds
    {
      var ad := ads[i];
      clips := clips + [AdvertClip(ad.startSeconds, ad.endSeconds - ad.startSeconds)];
    }
  }

  /** What one run hands to ffmpeg: the filter graph for the podcast and one clip
      per advert. */
  datatype StripPlan = StripPlan(filterComplex: string, clips: seq<AdvertClip>)

  /** `stripAdverts` with the probed duration as input. ffprobe rejects a missing or
      zero duration before anything else happens; otherwise the caller's array is
      sorted in place and every later step sees the sorted order. */
  method StripAdverts(advertRanges: array<TimeRange>, probedDuration: Option<int>)
    returns (r: Result<StripPlan>)
    modifies advertRanges
    ensures probedDuration.None? || probedDuration == Some(0) ==>
              r.Failure? && advertRanges[..] == old(advertRanges[..])
    ensures probedDuration.Some? && probedDuration.value != 0 ==>
              && advertRanges[..] == SortByKey(old(advertRanges[..]), StartOf)
              && r.Success?
              && r.value.filterComplex == FullFilter(NonAdRanges(advertRanges[..], probedDuration.value))
              && |r.value.clips| == advertRanges.Length
              && forall i :: 0 <= i < advertRanges.Length ==>
                   r.value.clips[i].startTime == advertRanges[i].startSeconds
                   && r.value.clips[i].startTime + r.value.clips[i].duration == advertRanges[i].endSeconds
  {
    if probedDuration.None? || probedDuration.value == 0 {
      return Failure("ffprobe reported no duration");
    }
    var duration := probedDuration.value;
    SortInPlace(advertRanges, StartOf);
    var nonAdRanges := SweepNonAdRanges(advertRanges[..], duration);
    var fullFilter := FullFilter(nonAdRanges);
    var clips := PlanAdvertClips(advertRanges[..]);
    r := Success(StripPlan(fullFilter, clips));
  }
}
