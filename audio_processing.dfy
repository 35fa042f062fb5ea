/** src/audio_processing.py, `PydubAudioProcessor.strip_adverts`.

    Audio is a sequence with one element per millisecond, and the model slices
    it by Python's slice rules, clamping bounds that fall outside it. The timestamps are sorted by start on a new list;
    each advert is exported as `ad<idx>.mp3` (idx from 1), a keep slice is taken
    before each advert that starts after the current position, the position then
    jumps to that advert's end, and the tail from the position is kept when the
    position is inside the audio. The keep slices are concatenated into
    `output.mp3`. */
module AudioProcessing {
  import opened Models
  import opened Sorting
  import opened Numbers
  import opened Lists

  /** One advert, its `start` and `end` already converted to whole milliseconds. */
  datatype AdvertTimestamp = AdvertTimestamp(startMs: int, endMs: int)

  function StartMsOf(ts: AdvertTimestamp): int
  {
    ts.startMs
  }

  /** Where a Python slice bound lands in a sequence of length `n`. */
  function SliceIndex(i: int, n: nat): (j: nat)
    ensures j <= n
    ensures 0 <= i <= n ==> j == i
    ensures i > n ==> j == n
    ensures i < 0 ==> j == Max(i + n, 0)
  {
    if i < 0 then (if i + n < 0 then 0 else i + n)
    else if i > n then n
    else i
  }

  /** `audio[lo:hi]`. */
  function Slice<S>(audio: seq<S>, lo: int, hi: int): (r: seq<S>)
    ensures 0 <= lo <= hi <= |audio| ==> r == audio[lo..hi]
    ensures |r| <= |audio|
  {
    var i, j := SliceIndex(lo, |audio|), SliceIndex(hi, |audio|);
    if i < j then audio[i..j] else []
  }

  /** A file written to the output folder, named relative to it. */
  datatype ExportedFile<S> = ExportedFile(name: string, audio: seq<S>)

  function AdvertFileName(idx: nat): string
  {
    "ad" + NatToString(idx) + ".mp3"
  }

  const OutputFileName := "output.mp3"

  /** `current_position` after visiting `ts`: the end of the last one, or 0. */
  function Position(ts: seq<AdvertTimestamp>): int
  {
    if ts == [] then 0 else ts[|ts| - 1].endMs
  }

  /** The keep slices appended while visiting `ts`, before the tail. */
  function KeepGaps<S>(audio: seq<S>, ts: seq<AdvertTimestamp>): seq<seq<S>>
  {
    if ts == [] then []
    else
      var before, t := ts[..|ts| - 1], ts[|ts| - 1];
      KeepGaps(audio, before)
        + (if Position(before) < t.startMs then [Slice(audio, Position(before), t.startMs)] else [])
  }

  function KeepSlices<S>(audio: seq<S>, ts: seq<AdvertTimestamp>): seq<seq<S>>
  {
    KeepGaps(audio, ts) + (if Position(ts) < |audio| then [Slice(audio, Position(ts), |audio|)] else [])
  }

  /** `ad1.mp3`, `ad2.mp3`, ...: each advert's own slice, in sorted order. */
  function AdvertFiles<S>(audio: seq<S>, sorted: seq<AdvertTimestamp>): (files: seq<ExportedFile<S>>)
    ensures |files| == |sorted|
  {
    seq(|sorted|, i requires 0 <= i < |sorted| =>
      ExportedFile(AdvertFileName(i + 1), Slice(audio, sorted[i].startMs, sorted[i].endMs)))
  }

  /** Every file the run writes, adverts first and the ad-free audio last. */
  function Exports<S>(audio: seq<S>, sorted: seq<AdvertTimestamp>): seq<ExportedFile<S>>
  {
    AdvertFiles(audio, sorted) + [ExportedFile(OutputFileName, Flatten(KeepSlices(audio, sorted)))]
  }

  /** `strip_adverts` with the decoded audio as input and the exported files as
      output. */
  method StripAdverts<S>(audio: seq<S>, advertTimestamps: seq<AdvertTimestamp>)
    returns (exported: seq<ExportedFile<S>>)
    ensures exported == Exports(audio, SortByKey(advertTimestamps, StartMsOf))
  {
    var sortedTimestamps := SortByKey(advertTimestamps, StartMsOf);
    var segmentsToKeep;
    exported, segmentsToKeep := SweepTimestamps(audio, sortedTimestamps);
    var adFreeAudio := JoinSegments(segmentsToKeep);
    exported := exported + [ExportedFile(OutputFileName, adFreeAudio)];
  }

  /** The loop of src/audio_processing.py:36-53: the advert files and the keep
      slices. */
  method SweepTimestamps<S>(audio: seq<S>, sortedTimestamps: seq<AdvertTimestamp>)
    returns (advertFiles: seq<ExportedFile<S>>, segmentsToKeep: seq<seq<S>>)
    ensures advertFiles == AdvertFiles(audio, sortedTimestamps)
    ensures segmentsToKeep == KeepSlices(audio, sortedTimestamps)
  {
    segmentsToKeep := [];
    var currentPosition := 0;
    advertFiles := [];
    for i := 0 to |sortedTimestamps|
      invariant segmentsToKeep == KeepGaps(audio, sortedTimestamps[..i])
      invariant currentPosition == Position(sortedTimestamps[..i])
      invariant advertFiles == AdvertFiles(audio, sortedTimestamps[..i])
    {
      var startMs, endMs := sortedTimestamps[i].startMs, sortedTimestamps[i].endMs;
      SweepStep(audio, sortedTimestamps, i);
      advertFiles := advertFiles + [ExportedFile(AdvertFileName(i + 1), Slice(audio, startMs, endMs))];
      if currentPosition < startMs {
        segmentsToKeep := segmentsToKeep + [Slice(audio, currentPosition, startMs)];
      }
      currentPosition := endMs;
    }
    assert sortedTimestamps[..|sortedTimestamps|] == sortedTimestamps;
    if currentPosition < |audio| {
      segmentsToKeep := segmentsToKeep + [Slice(audio, currentPosition, |audio|)];
    }
  }

  /** Visiting timestamp `i` appends its advert file and the gap before it, if
      any, and moves the position to its end. */
  lemma SweepStep<S>(audio: seq<S>, ts: seq<AdvertTimestamp>, i: nat)
    requires i < |ts|
    ensures Position(ts[..i + 1]) == ts[i].endMs
    ensures AdvertFiles(audio, ts[..i + 1])
              == AdvertFiles(audio, ts[..i]) + [ExportedFile(AdvertFileName(i + 1), Slice(audio, ts[i].startMs, ts[i].endMs))]
    ensures KeepGaps(audio, ts[..i + 1]) == KeepGaps(audio, ts[..i])
              + (if Position(ts[..i]) < ts[i].startMs then [Slice(audio, Position(ts[..i]), ts[i].startMs)] else [])
  {
    assert ts[..i + 1][..i] == ts[..i];
  }


  /** src/audio_processing.py:55-60: the first slice, then `+=` each later one; empty
      audio when there is none. */
  method JoinSegments<S>(segmentsToKeep: seq<seq<S>>) returns (adFreeAudio: seq<S>)
    ensures adFreeAudio == Flatten(segmentsToKeep)
  {
    if |segmentsToKeep| > 0 {
      adFreeAudio := segmentsToKeep[0];
      assert segmentsToKeep[..1] == [segmentsToKeep[0]] && segmentsToKeep[..1][..0] == [];
      for k := 1 to |segmentsToKeep|
        invariant adFreeAudio == Flatten(segmentsToKeep[..k])
      {
        assert segmentsToKeep[..k + 1][..k] == segmentsToKeep[..k];
        adFreeAudio := adFreeAudio + segmentsToKeep[k];
      }
      assert segmentsToKeep[..|segmentsToKeep|] == segmentsToKeep;
    } else {
      adFreeAudio := [];
    }
  }

  /** One file per advert named `ad1.mp3`, `ad2.mp3`, ... in sorted order, each the
      advert's own slice, then `output.mp3`. */
  lemma ExportsNamed<S>(audio: seq<S>, sorted: seq<AdvertTimestamp>)
    ensures |Exports(audio, sorted)| == |sorted| + 1
    ensures Exports(audio, sorted)[|sorted|].name == OutputFileName
    ensures forall i :: 0 <= i < |sorted| ==>
              && Exports(audio, sorted)[i].name == AdvertFileName(i + 1)
              && (0 <= sorted[i].startMs <= sorted[i].endMs <= |audio| ==>
                    Exports(audio, sorted)[i].audio == audio[sorted[i].startMs..sorted[i].endMs])
  {
  }

  /** No two exported files share a name. */
  lemma ExportNamesDistinct<S>(audio: seq<S>, sorted: seq<AdvertTimestamp>)
    ensures forall i, j :: 0 <= i < j < |Exports(audio, sorted)| ==>
              Exports(audio, sorted)[i].name != Exports(audio, sorted)[j].name
  {
    var files := Exports(audio, sorted);
    ExportsNamed(audio, sorted);
    forall i, j | 0 <= i < j < |files| ensures files[i].name != files[j].name {
      if j < |sorted| {
        AdvertFileNamesDistinct(i + 1, j + 1);
      } else {
        AdvertFileNameNotOutput(i + 1);
      }
    }
  }

  lemma AdvertFileNamesDistinct(i: nat, j: nat)
    requires i != j
    ensures AdvertFileName(i) != AdvertFileName(j)
  {
    if AdvertFileName(i) == AdvertFileName(j) {
      assert NatToString(i) == AdvertFileName(i)[2..|AdvertFileName(i)| - 4];
      assert NatToString(j) == AdvertFileName(j)[2..|AdvertFileName(j)| - 4];
      NatToStringInjective(i, j);
    }
  }

  lemma AdvertFileNameNotOutput(i: nat)
    ensures AdvertFileName(i) != OutputFileName
  {
    assert AdvertFileName(i)[1] == 'd' && OutputFileName[1] == 'u';
  }


  /** With no adverts the output is the whole input. */
  lemma NoAdvertsKeepsAll<S>(audio: seq<S>)
    ensures Exports(audio, []) == [ExportedFile(OutputFileName, audio)]
  {
    var slices := KeepSlices(audio, []);
    if |audio| > 0 {
      assert slices == [audio[0..|audio|]];
      assert |slices[..0]| == 0;
      assert audio[0..|audio|] == audio;
    } else {
      assert slices == [];
    }
    assert Flatten(slices) == audio;
  }

  /** Whether some advert holds millisecond `t`. */
  predicate Covered(t: int, ts: seq<AdvertTimestamp>)
  {
    exists i :: 0 <= i < |ts| && ts[i].startMs <= t < ts[i].endMs
  }

  /** The milliseconds of `audio[..m]` that no advert holds, in order. */
  function Clean<S>(audio: seq<S>, ts: seq<AdvertTimestamp>, m: nat): (r: seq<S>)
    requires m <= |audio|
    ensures |r| <= m
  {
    if m == 0 then []
    else Clean(audio, ts, m - 1) + (if Covered(m - 1, ts) then [] else [audio[m - 1]])
  }

  lemma {:induction false} CleanSame<S>(audio: seq<S>, ts1: seq<AdvertTimestamp>, ts2: seq<AdvertTimestamp>, m: nat)
    requires m <= |audio|
    requires forall t :: 0 <= t < m ==> (Covered(t, ts1) <==> Covered(t, ts2))
    ensures Clean(audio, ts1, m) == Clean(audio, ts2, m)
  {
    if m > 0 {
      CleanSame(audio, ts1, ts2, m - 1);
    }
  }

  lemma {:induction false} CleanUncovered<S>(audio: seq<S>, ts: seq<AdvertTimestamp>, lo: nat, hi: nat)
    requires lo <= hi <= |audio|
    requires forall t :: lo <= t < hi ==> !Covered(t, ts)
    ensures Clean(audio, ts, hi) == Clean(audio, ts, lo) + audio[lo..hi]
  {
    if lo < hi {
      CleanUncovered(audio, ts, lo, hi - 1);
      assert audio[lo..hi] == audio[lo..hi - 1] + [audio[hi - 1]];
    }
  }

  lemma {:induction false} CleanCovered<S>(audio: seq<S>, ts: seq<AdvertTimestamp>, lo: nat, hi: nat)
    requires lo <= hi <= |audio|
    requires forall t :: lo <= t < hi ==> Covered(t, ts)
    ensures Clean(audio, ts, hi) == Clean(audio, ts, lo)
  {
    if lo < hi {
      CleanCovered(audio, ts, lo, hi - 1);
    }
  }

  /** The position with the later TypeScript iteration's running maximum. */
  function FixedPosition(ts: seq<AdvertTimestamp>): (p: int)
    ensures p >= 0
    ensures forall i :: 0 <= i < |ts| ==> ts[i].endMs <= p
    ensures p == 0 || exists i :: 0 <= i < |ts| && ts[i].endMs == p
  {
    if ts == [] then 0
    else
      var before := ts[..|ts| - 1];
      assert forall i :: 0 <= i < |before| ==> before[i] == ts[i];
      Max(FixedPosition(before), ts[|ts| - 1].endMs)
  }

  function FixedKeepGaps<S>(audio: seq<S>, ts: seq<AdvertTimestamp>): seq<seq<S>>
  {
    if ts == [] then []
    else
      var before, t := ts[..|ts| - 1], ts[|ts| - 1];
      FixedKeepGaps(audio, before)
        + (if FixedPosition(before) < t.startMs then [Slice(audio, FixedPosition(before), t.startMs)] else [])
  }

  /** The corrected keep slices: the position never moves backwards. */
  function FixedKeepSlices<S>(audio: seq<S>, ts: seq<AdvertTimestamp>): seq<seq<S>>
  {
    FixedKeepGaps(audio, ts)
      + (if FixedPosition(ts) < |audio| then [Slice(audio, FixedPosition(ts), |audio|)] else [])
  }

  /** Below the position reached before advert `a`, adding `a` covers nothing new:
      a time `a` holds there is held by the advert that reached the position, which
      starts no later. */
  lemma CoverUnchangedBelow(before: seq<AdvertTimestamp>, a: AdvertTimestamp, t: int)
    requires SortedBy(before + [a], StartMsOf)
    requires 0 <= t < FixedPosition(before)
    ensures Covered(t, before + [a]) <==> Covered(t, before)
  {
    var ts := before + [a];
    if Covered(t, ts) {
      var j :| 0 <= j < |ts| && ts[j].startMs <= t < ts[j].endMs;
      if j < |before| {
        assert ts[j] == before[j];
      } else {
        var k :| 0 <= k < |before| && before[k].endMs == FixedPosition(before);
        assert ts[k] == before[k] && ts[j] == a;
        assert before[k].startMs <= t < before[k].endMs;
      }
    }
    if Covered(t, before) {
      var j :| 0 <= j < |before| && before[j].startMs <= t < before[j].endMs;
      assert ts[j] == before[j];
    }
  }

  lemma CleanBelow<S>(audio: seq<S>, before: seq<AdvertTimestamp>, a: AdvertTimestamp)
    requires SortedBy(before + [a], StartMsOf)
    ensures Clean(audio, before + [a], Min(FixedPosition(before), |audio|))
              == Clean(audio, before, Min(FixedPosition(before), |audio|))
  {
    var m := Min(FixedPosition(before), |audio|);
    forall t | 0 <= t < m ensures Covered(t, before + [a]) <==> Covered(t, before) {
      CoverUnchangedBelow(before, a, t);
    }
    CleanSame(audio, before + [a], before, m);
  }

  /** From the old position to the new one, the part before `a` starts is
      uncovered and the rest is held by `a`. */
  lemma CleanAcrossGap<S>(audio: seq<S>, before: seq<AdvertTimestamp>, a: AdvertTimestamp)
    requires FixedPosition(before) < a.startMs <= a.endMs
    ensures var ts, c, n := before + [a], FixedPosition(before), |audio|;
      Clean(audio, ts, Min(FixedPosition(ts), n)) == Clean(audio, ts, Min(c, n)) + Slice(audio, c, a.startMs)
  {
    var ts := before + [a];
    var c, n := FixedPosition(before), |audio|;
    var m, s := Min(c, n), Min(a.startMs, n);
    var m2 := Min(FixedPosition(ts), n);
    assert ts[..|ts| - 1] == before && ts[|ts| - 1] == a;
    forall t | m <= t < s ensures !Covered(t, ts) {
      forall j | 0 <= j < |ts| ensures !(ts[j].startMs <= t < ts[j].endMs) {
        if j < |before| { assert ts[j] == before[j]; }
      }
    }
    CleanUncovered(audio, ts, m, s);
    forall t | s <= t < m2 ensures Covered(t, ts) {
      assert ts[|ts| - 1].startMs <= t < ts[|ts| - 1].endMs;
    }
    CleanCovered(audio, ts, s, m2);
  }

  lemma CleanInsideAdvert<S>(audio: seq<S>, before: seq<AdvertTimestamp>, a: AdvertTimestamp)
    requires a.startMs <= FixedPosition(before)
    ensures var ts, c, n := before + [a], FixedPosition(before), |audio|;
      Clean(audio, ts, Min(FixedPosition(ts), n)) == Clean(audio, ts, Min(c, n))
  {
    var ts := before + [a];
    var c, n := FixedPosition(before), |audio|;
    var m, m2 := Min(c, n), Min(FixedPosition(ts), n);
    assert ts[..|ts| - 1] == before && ts[|ts| - 1] == a;
    forall t | m <= t < m2 ensures Covered(t, ts) {
      assert ts[|ts| - 1].startMs <= t < ts[|ts| - 1].endMs;
    }
    CleanCovered(audio, ts, m, m2);
  }

  lemma {:induction false} FixedKeepGapsClean<S>(audio: seq<S>, ts: seq<AdvertTimestamp>)
    requires SortedBy(ts, StartMsOf)
    requires forall i :: 0 <= i < |ts| ==> ts[i].startMs <= ts[i].endMs
    ensures Flatten(FixedKeepGaps(audio, ts)) == Clean(audio, ts, Min(FixedPosition(ts), |audio|))
  {
    if ts != [] {
      var before, a := ts[..|ts| - 1], ts[|ts| - 1];
      assert ts == before + [a];
      assert SortedBy(before, StartMsOf);
      FixedKeepGapsClean(audio, before);
      CleanBelow(audio, before, a);
      FixedKeepGapsStep(audio, before, a);
      if FixedPosition(before) < a.startMs {
        CleanAcrossGap(audio, before, a);
      } else {
        CleanInsideAdvert(audio, before, a);
      }
    }
  }

  /** One more advert adds the slice from the old position to its start, if any. */
  lemma FixedKeepGapsStep<S>(audio: seq<S>, before: seq<AdvertTimestamp>, a: AdvertTimestamp)
    ensures var c := FixedPosition(before);
      Flatten(FixedKeepGaps(audio, before + [a]))
        == Flatten(FixedKeepGaps(audio, before)) + (if c < a.startMs then Slice(audio, c, a.startMs) else [])
  {
    var ts := before + [a];
    assert ts[..|ts| - 1] == before && ts[|ts| - 1] == a;
    var c := FixedPosition(before);
    if c < a.startMs {
      var piece := Slice(audio, c, a.startMs);
      FlattenAppend(FixedKeepGaps(audio, before), [piece]);
      assert Flatten([piece]) == piece by { assert [piece][..0] == []; }
    } else {
      assert FixedKeepGaps(audio, ts) == FixedKeepGaps(audio, before);
    }
  }

  /** The corrected sweep removes exactly the advert milliseconds: for adverts
      sorted by start, none ending before it starts, the output is the input with
      every millisecond some advert holds taken out, nested and overlapping adverts
      included. */
  lemma FixedOutputIsClean<S>(audio: seq<S>, ts: seq<AdvertTimestamp>)
    requires SortedBy(ts, StartMsOf)
    requires forall i :: 0 <= i < |ts| ==> ts[i].startMs <= ts[i].endMs
    ensures Flatten(FixedKeepSlices(audio, ts)) == Clean(audio, ts, |audio|)
  {
    FixedKeepGapsClean(audio, ts);
    var p := FixedPosition(ts);
    var n := |audio|;
    var slices := FixedKeepSlices(audio, ts);
    if p < n {
      forall t | p <= t < n ensures !Covered(t, ts) {
      }
      CleanUncovered(audio, ts, p, n);
      assert slices[..|slices| - 1] == FixedKeepGaps(audio, ts);
    } else {
      assert slices == FixedKeepGaps(audio, ts);
    }
  }

  /** As written, the sweep is the corrected one whenever no advert ends before an
      earlier one and no end is negative. */
  lemma PositionAgreesWithFixed<S>(audio: seq<S>, ts: seq<AdvertTimestamp>)
    requires forall i, j :: 0 <= i < j < |ts| ==> ts[i].endMs <= ts[j].endMs
    requires forall i :: 0 <= i < |ts| ==> ts[i].endMs >= 0
    ensures Position(ts) == FixedPosition(ts)
    ensures KeepGaps(audio, ts) == FixedKeepGaps(audio, ts)
    ensures KeepSlices(audio, ts) == FixedKeepSlices(audio, ts)
  {
    LastEndIsMax(ts);
    KeepGapsAgree(audio, ts);
  }

  /** With nondecreasing, non-negative ends, the last end is the running maximum. */
  lemma LastEndIsMax(ts: seq<AdvertTimestamp>)
    requires forall i, j :: 0 <= i < j < |ts| ==> ts[i].endMs <= ts[j].endMs
    requires forall i :: 0 <= i < |ts| ==> ts[i].endMs >= 0
    ensures Position(ts) == FixedPosition(ts)
  {
    if ts != [] && FixedPosition(ts) != 0 {
      var i :| 0 <= i < |ts| && ts[i].endMs == FixedPosition(ts);
      assert ts[i].endMs <= ts[|ts| - 1].endMs;
    }
  }

  lemma {:induction false} KeepGapsAgree<S>(audio: seq<S>, ts: seq<AdvertTimestamp>)
    requires forall i, j :: 0 <= i < j < |ts| ==> ts[i].endMs <= ts[j].endMs
    requires forall i :: 0 <= i < |ts| ==> ts[i].endMs >= 0
    ensures KeepGaps(audio, ts) == FixedKeepGaps(audio, ts)
  {
    if ts != [] {
      var before := ts[..|ts| - 1];
      assert forall i :: 0 <= i < |before| ==> before[i] == ts[i];
      KeepGapsAgree(audio, before);
      LastEndIsMax(before);
    }
  }


  /** As written, a nested advert pulls the position back: with 10 ms of audio and
      adverts [1, 5) and [2, 3), milliseconds 3 and 4 of the first advert reach the
      output. */
  lemma NestedAdvertLeaks()
    ensures var audio: seq<int> := [0, 1, 2, 3, 4, 5, 6, 7, 8, 9];
      var ts := [AdvertTimestamp(1, 5), AdvertTimestamp(2, 3)];
      && SortedBy(ts, StartMsOf)
      && KeepSlices(audio, ts) == [audio[0..1], audio[3..10]]
      && Covered(4, ts)
      && 4 in Flatten(KeepSlices(audio, ts))
      && 4 !in Clean(audio, ts, |audio|)
  {
    var audio: seq<int> := [0, 1, 2, 3, 4, 5, 6, 7, 8, 9];
    var ts := [AdvertTimestamp(1, 5), AdvertTimestamp(2, 3)];
    NestedKeepSlices(audio, ts);
    NestedOutputHolds(audio, ts);
    assert Covered(4, ts) by {
      assert ts[0].startMs <= 4 < ts[0].endMs;
    }
    CleanNeverHolds(audio, ts, 4, |audio|);
  }

  lemma NestedKeepSlices(audio: seq<int>, ts: seq<AdvertTimestamp>)
    requires audio == [0, 1, 2, 3, 4, 5, 6, 7, 8, 9]
    requires ts == [AdvertTimestamp(1, 5), AdvertTimestamp(2, 3)]
    ensures KeepSlices(audio, ts) == [audio[0..1], audio[3..10]]
  {
    assert |ts[..1][..0]| == 0 && ts[..1] == [AdvertTimestamp(1, 5)];
    assert KeepGaps(audio, ts[..1]) == [Slice(audio, 0, 1)];
    assert KeepGaps(audio, ts) == [Slice(audio, 0, 1)];
  }

  lemma NestedOutputHolds(audio: seq<int>, ts: seq<AdvertTimestamp>)
    requires audio == [0, 1, 2, 3, 4, 5, 6, 7, 8, 9]
    requires KeepSlices(audio, ts) == [audio[0..1], audio[3..10]]
    ensures 4 in Flatten(KeepSlices(audio, ts))
  {
    var slices := KeepSlices(audio, ts);
    assert slices[..1] == [audio[0..1]];
    assert Flatten(slices[..1]) == audio[0..1] by {
      assert |slices[..1][..0]| == 0;
    }
    assert Flatten(slices) == audio[0..1] + audio[3..10];
    assert audio[3..10][1] == 4;
  }


  lemma {:induction false} CleanNeverHolds(audio: seq<int>, ts: seq<AdvertTimestamp>, t: nat, m: nat)
    requires m <= |audio| && t < |audio|
    requires forall k :: 0 <= k < |audio| ==> audio[k] == k
    requires Covered(t, ts)
    ensures t !in Clean(audio, ts, m)
  {
    if m > 0 {
      CleanNeverHolds(audio, ts, t, m - 1);
    }
  }
}
