# podcast-adblocker, modelled in Dafny

podcast-adblocker downloads a podcast episode and transcribes it. A language model picks out the adverts, and the tool cuts them out of the audio, keeping each advert as its own clip. Three iterations of the tool live side by side. Two are TypeScript: `source/`, which uploads to an S3-compatible bucket, and `src/`, which runs on Workers AI. The third is Python, under `src/*.py`.

This project models the logic at the core of all three and proves properties of it. That core is:

- **The advert strippers.** Each turns advert time ranges into "keep" ranges, an ffmpeg filter graph and one cut per advert.
  - `source/advertStripper.ts` sorts the caller's array in place and sweeps with a running maximum of advert ends.
  - `src/advertStripper.ts` sorts a copy and moves a cursor to each advert's end.
  - `src/audio_processing.py` does the same cursor sweep over audio sliced by the millisecond.
- **Transcripts.**
  - Whisper word lists are flattened (`src/transcriber.ts`, `source/transcriber.ts`).
  - Chunk transcripts are placed on one timeline by a nominal 15-minute offset (`source/transcriber.ts`).
  - The Google Speech transcript is built line by line (`src/transcription.py`).
- **Advert detection.** The two transcript serialisers, and the checks on what the model returns (`source/advertDetector.ts`, `src/advertDetector.ts`).
- **Export** (`source/exporter.ts`). Object keys, the order of uploads, and the RSS 2.0 feed template.
- **`src/main.py`.** The pickle cache behind `run_with_cache`, the choice of the latest episode's audio link, and the cache keys.

How the model represents things:

- TypeScript times are integers counting hundredths of a second; Python times are integer milliseconds.
- `x.toFixed(2)` prints the whole part, a `.` and two digits. `${x}` prints the whole part and at most two decimals, with trailing zeros dropped.
- Audio is a sequence with one element per millisecond. The model slices it by Python's slice rules, clamping bounds that fall outside it.
- An ffmpeg run is the option and filter strings it is given.
- The S3 client is the log of `PutObject` requests it was sent.
- The cache directory is a map from file path to stored value.
- The `fn` that `run_with_cache` calls is its outcome: the value it would return, or the exception it would raise.
- JavaScript's `sort` and Python's `sorted` are one stable sort by key.

Three behaviours of the code are easy to miss; the model keeps them:

- None of the strippers clamps ranges to the episode or drops inverted ranges.
- `source/advertStripper.ts` emits advert clips in sorted order, because its sort reorders the caller's array before the clip loop.
- The two cursor sweeps do not merge overlapping adverts (see Findings).

Each loop of the source is a Dafny method, proved equal to a function that states what the loop builds. The properties are lemmas about those functions. Each stripper that moves a cursor is modelled as written. Beside it stands a corrected sweep that keeps the running maximum, with the intended property proved about it.

## Model

| member | source | states |
|---|---|---|
| Sorting.SortByKey | source/advertStripper.ts:54 | the sort returns a permutation of its input, ordered by start |
| Sorting.SortByKeyStable | source/advertStripper.ts:54 | adverts with equal starts keep their relative order |
| Sorting.SortInPlace | source/advertStripper.ts:54 | the caller's array itself becomes the sorted sequence |
| SourceAdvertStripper.RunningEnd | source/advertStripper.ts:53-59 | `lastEnd` is at least 0, at least every advert end visited, and equal to one of them unless 0 |
| SourceAdvertStripper.Gaps | source/advertStripper.ts:53-59 | the ranges the loop pushes, from `lastEnd` to the start of each advert that starts after it, in visiting order; its properties are the Gaps lemmas below |
| SourceAdvertStripper.NonAdRanges | source/advertStripper.ts:52-62 | the gaps, then `[lastEnd, duration)` when `lastEnd < duration`; its properties are the NonAdRanges lemmas below |
| SourceAdvertStripper.SweepNonAdRanges | source/advertStripper.ts:52-62 | the loop pushes a gap before each advert starting after `lastEnd`, then the tail when `lastEnd < duration` |
| SourceAdvertStripper.GapsPositive | source/advertStripper.ts:55-57 | every gap starts at or after 0 and is non-empty |
| SourceAdvertStripper.GapsAscending | source/advertStripper.ts:53-59 | with well-formed adverts, the gaps ascend and end by `lastEnd` |
| SourceAdvertStripper.GapsBeforeLastStart | source/advertStripper.ts:54-57 | for sorted adverts, no gap ends after the last advert starts |
| SourceAdvertStripper.NonAdRangesCount | source/advertStripper.ts:52-62 | at most one keep range per advert, plus the tail |
| SourceAdvertStripper.AllAdvertFilter | source/advertStripper.ts:52-68 | one advert covering the whole episode leaves no keep range and a concat of nothing |
| SourceAdvertStripper.AdvertPastEndNotClamped | source/advertStripper.ts:55-62 | an advert starting past the duration gives one keep range running past the end, and no tail |
| SourceAdvertStripper.NonAdRangesNonEmpty | source/advertStripper.ts:55-62 | every keep range, the tail included, is non-empty and starts at or after 0 |
| SourceAdvertStripper.NonAdRangesAscending | source/advertStripper.ts:53-62 | with well-formed adverts, the keep ranges are ascending and pairwise disjoint |
| SourceAdvertStripper.GapsAvoidAdverts | source/advertStripper.ts:53-59 | for sorted adverts, no gap overlaps any advert |
| SourceAdvertStripper.NonAdRangesAvoidAdverts | source/advertStripper.ts:53-62 | for sorted adverts, no keep range overlaps any advert |
| SourceAdvertStripper.NonAdRangesCover | source/advertStripper.ts:52-62 | every time in [0, duration) that no advert holds lies in a keep range, in any order |
| SourceAdvertStripper.NonAdRangesPartition | source/advertStripper.ts:52-62 | for sorted adverts, a time in [0, duration) is kept if and only if no advert holds it; negative times are never kept |
| SourceAdvertStripper.TrimFilter | source/advertStripper.ts:64-65 | the chain `[0:a]atrim=start=S:end=E,asetpts=PTS-STARTPTS[a<i>]`, both times printed as `${x}` prints them |
| SourceAdvertStripper.TrimFilters | source/advertStripper.ts:64-66 | one chain per keep range, labelled by its position |
| SourceAdvertStripper.ConcatFilter | source/advertStripper.ts:67-68 | the concat stage `[a0]…[a<n-1>]concat=n=<n>:v=0:a=1[out]` |
| SourceAdvertStripper.FullFilter | source/advertStripper.ts:64-68 | the chains joined with `"; "`, then `"; "` and the concat stage |
| SourceAdvertStripper.FullFilterSplit | source/advertStripper.ts:64-68 | split at `;`, the graph gives back the first chain, then each later chain and the concat stage after one space; with no keep ranges it gives an empty stage and ` concat=n=0:v=0:a=1[out]` |
| SourceAdvertStripper.TrimFilterRoundTrip | source/advertStripper.ts:64-66 | each `atrim` chain reads back as its keep range and its label `a<i>` |
| SourceAdvertStripper.PlanAdvertClips | source/advertStripper.ts:83-102 | one clip per advert, in order, starting at its start and lasting until its end |
| SourceAdvertStripper.StripAdverts | source/advertStripper.ts:45-102 | a missing or zero probed duration fails with the array untouched; otherwise the array is sorted in place, the filter is built from its keep ranges, and there is one clip per sorted advert |
| SrcAdvertStripper.CursorAfter | src/advertStripper.ts:29-37 | the cursor is the end of the last advert visited, or 0 |
| SrcAdvertStripper.KeepSpans | src/advertStripper.ts:28-38 | a bounded span from the cursor to each advert starting after it, then the open span from the final cursor |
| SrcAdvertStripper.KeepFilterText | src/advertStripper.ts:31-38 | `atrim=start=S:end=E,asetpts=PTS-STARTPTS` for a bounded span and `atrim=start=S,asetpts=PTS-STARTPTS` for the open one |
| SrcAdvertStripper.KeepFilters | src/advertStripper.ts:28-38 | the filter text of each keep span, in order |
| SrcAdvertStripper.BuildKeepFilters | src/advertStripper.ts:28-38 | the loop pushes a bounded filter before each advert starting after the cursor, then the open tail |
| SrcAdvertStripper.KeepFilterRoundTrip | src/advertStripper.ts:31-38 | each keep filter reads back as exactly its span, bounded or open-ended |
| SrcAdvertStripper.KeepSpansCount | src/advertStripper.ts:30-38 | the keep list is never empty, holds at most one span per advert plus the tail, and only its last span is open |
| SrcAdvertStripper.KeepFiltersCountExact | src/advertStripper.ts:30-38 | the keep filters number 1 plus the adverts that start after the cursor when visited |
| SrcAdvertStripper.KeepSpansCover | src/advertStripper.ts:28-38 | in any order, every time from 0 on that no advert holds is kept |
| SrcAdvertStripper.CursorAgreesWithRunningEnd | src/advertStripper.ts:29-37 | with nondecreasing, non-negative ends, the cursor and its gaps equal the running-maximum sweep's |
| SrcAdvertStripper.KeepSpansAvoidAdverts | src/advertStripper.ts:28-38 | under that condition, for sorted adverts, no kept time lies in an advert |
| SrcAdvertStripper.NestedAdvertLeaks | src/advertStripper.ts:36 | adverts [10, 50) and [20, 30) keep [0, 10) and everything from 30, so time 40 of the first advert is kept |
| SrcAdvertStripper.FixedKeepSpans | src/advertStripper.ts:36 | the keep spans the sweep builds with `cursor = Math.max(cursor, end)` instead |
| SrcAdvertStripper.FixedKeepSpansPartition | src/advertStripper.ts:36 | with the running maximum, a time from 0 on is kept if and only if no sorted advert holds it |
| SrcAdvertStripper.FilterComplex | src/advertStripper.ts:40-49 | with several filters, the `[0:a]<f>[seg<i>]` chains joined with `;`, then `;`, the labels and the concat stage; with one, `[0:a]<f>[out]` |
| SrcAdvertStripper.FilterComplexSplit | src/advertStripper.ts:40-49 | with several filters free of `;`, the graph splits at `;` into each labelled chain, in order, and then the concat stage |
| SrcAdvertStripper.FilterComplexChains | src/advertStripper.ts:40-49 | the filters the loop builds contain no `;`, so when there are several their graph splits into one chain per span and the concat stage |
| SrcAdvertStripper.AdvertOptions | src/advertStripper.ts:58-63 | `-ss`, the start, `-t`, and `end - start`, printed as `${x}` prints them |
| SrcAdvertStripper.AdvertOptionsRoundTrip | src/advertStripper.ts:56-63 | the `-ss` option reads back as the start and `-t` as end minus start |
| SrcAdvertStripper.StripAdverts | src/advertStripper.ts:24-70 | the caller's array is not modified; the filter and the cuts follow the sorted copy, one cut per advert |
| AudioProcessing.SliceIndex | src/audio_processing.py:43-53 | a slice bound is clamped into the audio, and a negative bound counts from the end |
| AudioProcessing.Slice | src/audio_processing.py:43-53 | in-range bounds give exactly that part of the audio, and a slice is never longer than the audio |
| AudioProcessing.SweepTimestamps | src/audio_processing.py:36-53 | the loop exports each advert's slice and keeps the gap before each advert starting after the position, then the tail |
| AudioProcessing.SweepStep | src/audio_processing.py:39-50 | visiting advert `i` appends its file and any gap before it, and moves the position to its end |
| AudioProcessing.KeepSlices | src/audio_processing.py:36-53 | the slice before each advert starting after the position, then the slice from the final position to the end when there is audio left |
| AudioProcessing.Exports | src/audio_processing.py:39-63 | `ad<i>.mp3` holding each sorted advert's slice, then `output.mp3` holding the keep slices joined |
| AudioProcessing.JoinSegments | src/audio_processing.py:55-60 | the output is the keep slices concatenated in order, or empty audio when there are none |
| AudioProcessing.StripAdverts | src/audio_processing.py:35-64 | the run writes the sorted adverts' files and then `output.mp3` holding the kept audio |
| AudioProcessing.ExportsNamed | src/audio_processing.py:39-63 | the files are `ad1.mp3` to `ad<n>.mp3`, each its advert's slice, and then `output.mp3` |
| AudioProcessing.ExportNamesDistinct | src/audio_processing.py:44-62 | no two exported files share a name |
| AudioProcessing.AdvertFileNamesDistinct | src/audio_processing.py:44 | different advert numbers give different file names |
| AudioProcessing.NoAdvertsKeepsAll | src/audio_processing.py:36-60 | with no adverts, the output is the whole input |
| AudioProcessing.FixedKeepSlices | src/audio_processing.py:48-53 | the keep slices the sweep builds with `current_position = max(current_position, end_ms)` instead |
| AudioProcessing.FixedKeepGapsClean | src/audio_processing.py:48-50 | with the running maximum and sorted, well-formed adverts, the gaps hold exactly the unadvertised milliseconds before the position |
| AudioProcessing.FixedOutputIsClean | src/audio_processing.py:48-53 | with the running maximum and sorted, well-formed adverts, the output is the input minus every advertised millisecond |
| AudioProcessing.PositionAgreesWithFixed | src/audio_processing.py:48-53 | with nondecreasing, non-negative ends, the code's position and slices equal the corrected ones |
| AudioProcessing.NestedAdvertLeaks | src/audio_processing.py:50 | adverts [1, 5) and [2, 3) over 10 ms put millisecond 4, which an advert holds, into the output |
| SourceTranscriber.Transcribe | source/transcriber.ts:29-51 | a failed request throws with its status text, and a success is never empty |
| SourceTranscriber.TranscribeSuccess | source/transcriber.ts:35-45 | a success had `ok`, a truthy `success` and truthy words, each with numeric times and a string text |
| SourceTranscriber.TranscribeRoundTrip | source/transcriber.ts:39-51 | a body carrying words returns them unchanged and in order, and one carrying none throws |
| SourceTranscriber.Shift | source/transcriber.ts:61-65 | both times of every segment moved by the offset, the text kept |
| SourceTranscriber.ShiftKeepsTextAndLength | source/transcriber.ts:61-65 | the shift keeps each segment's text and duration, and shifting back undoes it |
| SourceTranscriber.ChunkOffset | source/transcriber.ts:54-69 | the offset of chunk `k`: `k × minutes × 60` seconds, in hundredths |
| SourceTranscriber.Reconcile | source/transcriber.ts:54-73 | the first failing chunk's error, or every chunk shifted by its offset and concatenated in order |
| SourceTranscriber.TranscribeMultiple | source/transcriber.ts:54-73 | the loop returns the reconciled list: each chunk shifted by its offset, concatenated, or the first chunk's error |
| SourceTranscriber.FailureSticks | source/transcriber.ts:58-59 | once a chunk fails, later chunks change nothing |
| SourceTranscriber.FirstFailureWins | source/transcriber.ts:58-59 | the first failing chunk's error is the result |
| SourceTranscriber.ReconcileSucceeds | source/transcriber.ts:55-72 | the result succeeds if and only if every chunk does; it is then the shifted chunks in order, and no chunks give the empty list |
| SourceTranscriber.ReconcileIndex | source/transcriber.ts:58-68 | segment `j` of chunk `k` lands after the earlier chunks' segments, shifted by `k × minutes × 60` seconds |
| SourceTranscriber.DefaultOffsetIsChunkStart | source/transcriber.ts:54-69 | with the default of 15 minutes and 900-second chunks, every chunk but the last full length, each segment lands at its own start plus its chunk's true start in the episode |
| SourceTranscriber.OffsetsExact | source/transcriber.ts:69-70 | the nominal offsets match the real chunk starts if and only if every chunk but the last is exactly the nominal length |
| SourceTranscriber.NominalPrefix | source/transcriber.ts:69 | chunks of exactly nominal length keep the next chunk's offset exact |
| Whisper.WordSegment | source/transcriber.ts:39-45 | a word maps to a segment if and only if it has numeric `start` and `end` and a string `word` |
| Whisper.ParseWords | source/transcriber.ts:39-45 | a null word throws a `TypeError`; otherwise the list parses if and only if every word does, in order |
| Whisper.ParseWordsRoundTrip | source/transcriber.ts:39-45 | the words of any segment list parse back to that list |
| SrcTranscriber.AllWords | src/transcriber.ts:24-30 | the words are collected if and only if every segment has a word array |
| SrcTranscriber.InvalidResponse | src/transcriber.ts:20-22 | a missing response or a missing or non-array `segments` throws before anything is read |
| SrcTranscriber.Transcribe | src/transcriber.ts:20-38 | a success is never empty |
| SrcTranscriber.TranscribeParsesAllWords | src/transcriber.ts:24-32 | a success parses exactly the flattened words of all segments, every segment having a word array |
| SrcTranscriber.TranscribeLength | src/transcriber.ts:24-32 | a success has as many segments as there are words in total |
| SrcTranscriber.TranscribeFlattens | src/transcriber.ts:24-32 | word `j` of segment `k` comes right after the words of the earlier segments |
| SrcTranscriber.TranscribeRoundTrip | src/transcriber.ts:24-38 | segments carrying words return them flattened in order; with no words at all it throws |
| SegmentTokens.Token | source/advertDetector.ts:32-34 | `<[s=S] T [e=E]>` with the text trimmed and both times printed by `toFixed(2)`; with the padding `" "` it is the `< [s=S] T [e=E] >` of src/advertDetector.ts |
| SegmentTokens.Serialise | source/advertDetector.ts:31-36 | no segments serialise to `""` |
| SegmentTokens.SerialiseAppend | source/advertDetector.ts:31-36 | serialising two runs joins their serialisations with a single space |
| SegmentTokens.TokenRoundTrip | source/advertDetector.ts:32-34 | every token reads back as both times and the trimmed text |
| SourceAdvertDetector.SerialiseTextSegments | source/advertDetector.ts:30-37 | the segments' unpadded tokens joined with one space |
| SourceAdvertDetector.SerialiseTextSegmentsTokens | source/advertDetector.ts:30-37 | each `<[s=S] T [e=E]>` token gives back its segment with the text trimmed, and tokens follow input order |
| SourceAdvertDetector.AdvertSegmentsOf | source/advertDetector.ts:146-148 | the list passes the schema if and only if every item does, and keeps their order |
| SourceAdvertDetector.DetectAdvertSegments | source/advertDetector.ts:146-160 | an output that fails the schema throws with the zod message, an empty list throws the no-adverts error, and otherwise the parsed list is returned |
| SourceAdvertDetector.DetectRoundTrip | source/advertDetector.ts:146-160 | any non-empty list comes back unchanged, unsorted or inverted ranges included; an empty one throws |
| SourceAdvertDetector.DetectSucceeds | source/advertDetector.ts:146-160 | success if and only if the output is a non-empty array of valid items; failures carry one of the two messages |
| SrcAdvertDetector.SerialiseTextSegments | src/advertDetector.ts:20-27 | the segments' padded tokens joined with one space |
| SrcAdvertDetector.SerialiseTextSegmentsTokens | src/advertDetector.ts:20-27 | each `< [s=S] T [e=E] >` token gives back its segment with the text trimmed, and tokens follow input order |
| SrcAdvertDetector.TokenFormatsDiffer | src/advertDetector.ts:24 | no token of this format is a token of the other detector's format |
| SrcAdvertDetector.TimeRangesOf | src/advertDetector.ts:100-102 | the list passes the schema if and only if every item does, and keeps their order |
| SrcAdvertDetector.DetectAdvertSegments | src/advertDetector.ts:100-108 | an output that fails the schema throws with the zod message; otherwise the parsed `timeRanges`, empty allowed |
| SrcAdvertDetector.DetectRoundTrip | src/advertDetector.ts:100-108 | every list comes back unchanged, the empty one included |
| SrcAdvertDetector.DetectSucceeds | src/advertDetector.ts:100-108 | success if and only if the output has a `timeRanges` array of valid items, empty allowed |
| Numbers.ToFixed2 | source/advertDetector.ts:34 | `x.toFixed(2)` of a time in hundredths: sign, whole part, `.` and two digits |
| Numbers.JsNumber | src/advertStripper.ts:33 | `${x}` of a time in hundredths: the fraction with trailing zeros dropped, and no `.` for a whole number |
| Numbers.NatToString | source/exporter.ts:61 | decimal digits without leading zeros |
| Numbers.ToFixed2RoundTrip | source/advertDetector.ts:34 | reading back a `toFixed(2)` time gives that time |
| Numbers.JsNumberRoundTrip | src/advertStripper.ts:33 | reading back a `${x}` time gives that time |
| Numbers.PrintersInjective | source/advertDetector.ts:34 | different times print differently under either printer |
| Numbers.NatToStringRoundTrip | source/exporter.ts:60 | a printed advert number reads back as itself |
| Numbers.NatToStringInjective | source/exporter.ts:60 | different numbers print differently |
| Text.Trim | source/advertDetector.ts:33 | `String.prototype.trim`: leading and trailing whitespace removed |
| Text.Join | source/advertDetector.ts:36 | `Array.prototype.join`: the parts with the separator between neighbours, `""` for none |
| Text.Split | src/transcription.py:93 | Python's `str.split` at one character, the reading back of the join at this line |
| Text.TrimIdempotent | source/advertDetector.ts:33 | trimming twice is trimming once |
| Text.SplitJoin | src/transcription.py:93 | lines free of the separator split back out of their join |
| Transcription.WordText | src/transcription.py:88 | `word<startOffset>`, with `''` and `'0s'` for a missing word or offset |
| Transcription.Line | src/transcription.py:87-89 | an alternative's words rendered and joined with one space |
| Transcription.Lines | src/transcription.py:83-91 | one line per alternative that has `words`, results in order and alternatives in order within each |
| Transcription.BuildTranscript | src/transcription.py:83-94 | the loops join one line per alternative that has `words`, results first, with `\n` |
| Transcription.WordTextRoundTrip | src/transcription.py:87-89 | a word renders as `word<offset>`, and a missing word or offset reads back as `''` or `'0s'` |
| Transcription.TranscriptLines | src/transcription.py:84-93 | without line breaks in words, the transcript splits back into its lines; no lines give `""` |
| Transcription.FirstTranscriptUri | src/transcription.py:65-72 | no response raises, no results raise, otherwise the first result's uri is used |
| SourceExporter.EpisodeKey | source/exporter.ts:50 | `<feedGuid>/<episodeGuid>.mp3` |
| SourceExporter.AdvertKey | source/exporter.ts:61 | `<feedGuid>/advert-<i+1>-<episodeGuid>.mp3` for the advert at index `i` |
| SourceExporter.FeedKey | source/exporter.ts:86 | `<feedGuid>/feed.xml` |
| SourceExporter.GenerateRssFeed | source/exporter.ts:93-134 | the template's literal text with its 23 values substituted verbatim, in order |
| SourceExporter.FeedFor | source/exporter.ts:70-82 | the feed for the episode's public URL, `audio/mpeg`, its byte length, its whole seconds and the feed's own URL, with `feedLocked` left at `true` |
| SourceExporter.Uploads | source/exporter.ts:50-89 | the `PutObject` requests of one export, in the order they are sent |
| SourceExporter.R2Exporter.Export | source/exporter.ts:50-89 | the export appends the episode, then each advert, then the feed built for this episode |
| SourceExporter.UploadsInOrder | source/exporter.ts:50-89 | `adverts.length + 2` uploads go to one bucket: episode first, advert `i` as `advert-<i+1>`, feed last |
| SourceExporter.KeyEndings | source/exporter.ts:50-86 | audio keys end in `.mp3` and the feed key in `.xml` |
| SourceExporter.AdvertKeysDistinct | source/exporter.ts:60 | two adverts of an episode share a key only if they share an index |
| SourceExporter.EpisodeKeyNotAdvertKey | source/exporter.ts:50-60 | the episode key is never an advert key |
| SourceExporter.UploadKeysDistinct | source/exporter.ts:50-89 | no upload of an export overwrites another |
| SourceExporter.TemplateSubstitutes | source/exporter.ts:103-133 | each value stands between the literal text around it in a template literal |
| SourceExporter.FeedSubstitution | source/exporter.ts:103-133 | each substitution of the feed stands between its surrounding literal text |
| SourceExporter.FeedSelfLink | source/exporter.ts:109 | the self link is `<publicUrl>/<feedGuid>/feed.xml` |
| SourceExporter.FeedTitle | source/exporter.ts:110 | the channel title is `<title> - Adblocked` |
| SourceExporter.FeedDescription | source/exporter.ts:111 | the channel description is wrapped in CDATA |
| SourceExporter.FeedLocked | source/exporter.ts:117 | `podcast:locked` is the default `true` |
| SourceExporter.FeedGuid | source/exporter.ts:118 | the channel guid is `<feedGuid>-podcast-adblocker` |
| SourceExporter.FeedAuthor | source/exporter.ts:119 | the author is wrapped in CDATA and followed by the item |
| SourceExporter.ItemTitle | source/exporter.ts:121 | the item title is the episode's title, verbatim |
| SourceExporter.EnclosureLength | source/exporter.ts:122 | the enclosure length is the episode's byte length |
| SourceExporter.EnclosureType | source/exporter.ts:122 | the enclosure type is `audio/mpeg` |
| SourceExporter.EnclosureUrl | source/exporter.ts:122 | the enclosure url is the episode's public URL |
| SourceExporter.ItemGuid | source/exporter.ts:123 | the item guid is `<episodeGuid>-podcast-adblocker` |
| SourceExporter.ItemDuration | source/exporter.ts:127 | the duration is the whole seconds reported for the episode |
| PodcastProcessor.PathJoin | src/main.py:47 | `os.path.join` of two components: an absolute name replaces the directory, and `/` is added only when missing |
| PodcastProcessor.CacheStep | src/main.py:44-58 | one call: a hit returns the stored value; a miss runs `fn`, then stores and returns its value, or returns its exception with nothing stored |
| PodcastProcessor.Cache.RunWithCache | src/main.py:44-58 | a stored value is returned without calling `fn`; otherwise `fn`'s value is stored and returned, or its exception propagates and nothing is stored |
| PodcastProcessor.CacheStepHitOrMiss | src/main.py:49-58 | `fn` is called if and only if the file is missing; its value is then stored, an exception stores nothing, and no other file changes |
| PodcastProcessor.RepeatedCallHits | src/main.py:44-58 | after a call that returned a value, the same key returns it again without calling `fn`; after one that raised, the next call runs `fn` again |
| PodcastProcessor.PathsDiffer | src/main.py:46-47 | keys with different digests are stored in different files |
| PodcastProcessor.TranscriptKey | src/main.py:114 | `transcript-<audio_url>` |
| PodcastProcessor.AdvertTimestampsKey | src/main.py:119 | `advert_timestamps-<audio_url>` |
| PodcastProcessor.CacheKeysDistinct | src/main.py:112-120 | transcript and advert keys never collide, and each names one URL |
| PodcastProcessor.FirstAudioLink | src/main.py:91-100 | the first link that is a dict with type `audio/mpeg` and a string href, if any |
| PodcastProcessor.GetLatestEpisodeUrl | src/main.py:80-105 | no entries raise; a success is the non-empty href of the first entry's first audio link |
| PodcastProcessor.FirstAudioLinkChosen | src/main.py:87-105 | that first audio link, when its href is not empty, is the URL returned |
| PodcastProcessor.NoAudioLinkFails | src/main.py:102-103 | an entry without an audio link raises |

## Left out

- Network and SDK calls are inputs to the model: `fetch`, Workers AI, OpenAI, Gemini, Google Cloud Speech and Storage, S3 and `music-metadata`.
- ffmpeg, ffprobe and pydub decoding and encoding are not modelled; bitrate, channels and format are ignored. ffprobe's duration is an input.
- Temporary files, `finally` clean-up, `os.makedirs` and pickling are filesystem side effects and are not modelled.
- `Promise.all` concurrency is not modelled; only its order is kept.
- AudioProcessing.Slice: pydub's `AudioSegment.__getitem__` is not part of this model. The model clamps every bound into the audio by Python's slice rules, while pydub may raise instead for a negative bound that reaches before the start of the audio; timestamps are unconstrained, so that error path is not captured.
- SourceExporter.R2Exporter.Export: always completes. A rejected `s3.send` or a throwing `parseBuffer` (source/exporter.ts:53-87) stops the export after the earlier uploads have gone out; the model does not capture that partial export.
- Floating point is not modelled; times are exact integers.
  - `toFixed(2)` rounding and JavaScript's exponent notation for very large or small numbers are left out.
  - `int(x * 1000)` in `src/audio_processing.py:40-41` is left out; the timestamps arrive in milliseconds.
  - `Math.floor(duration ?? 0)` in `source/exporter.ts:70` is left out; the floored duration is an input.
- SHA-256 is the cache's `digest` parameter.
- PodcastProcessor.PathsDiffer: assumes digests are lower-case hex, which is what `hexdigest` returns.
- `feedparser.parse` is not modelled; the parsed feed is an input. Entries are reduced to their `links`, and a `links` value that is missing or falsy is `None`.
- Transcript downloads, `urlparse` and `json.loads` are not modelled. The transcript JSON is an input typed by the keys the loop reads, so a non-string word value is out of scope.
- Transcription.BuildTranscript: a key present with JSON `null` (`"results"`, `"alternatives"` or `"words"`) counts as absent and yields no lines, where Python raises `TypeError` when iterating `None`.
- Transcription.FirstTranscriptUri: a response object with no field set counts as missing.
- The text of zod and `TypeError` messages is not modelled; each is a fixed error value.
- The environment checks of `src/main.py:28-38` are configuration and are not modelled.
- `process_latest_episode` is modelled only through its two cache keys.
- Output folder paths are not modelled; files are named relative to the folder.
- The feed is not proved to hold exactly one `<item>`. Metadata is substituted without XML escaping, so a value containing `<item>` adds another.
- `source/podcastDownloader.ts` is not part of this model. DefaultOffsetIsChunkStart refers only to its 900-second segment length.

## Findings

| source | as written | input that shows it | evidently intended | confidence | as-written member | corrected member |
|---|---|---|---|---|---|---|
| src/advertStripper.ts:36 | `cursor = end` moves the cursor back after a nested advert | adverts (10.00, 50.00) and (20.00, 30.00): the open tail starts at 30.00, so 30.00–50.00 of the first advert is kept | `cursor = Math.max(cursor, end)`, as in `source/advertStripper.ts:58` | not executed | SrcAdvertStripper.NestedAdvertLeaks | SrcAdvertStripper.FixedKeepSpansPartition |
| src/audio_processing.py:50 | `current_position = end_ms` moves the position back after a nested advert | adverts (1, 5) and (2, 3) ms over 10 ms of audio: `output.mp3` holds millisecond 4 of the first advert | `current_position = max(current_position, end_ms)` | not executed | AudioProcessing.NestedAdvertLeaks | AudioProcessing.FixedOutputIsClean |

The strippers (`SrcAdvertStripper.StripAdverts`, `AudioProcessing.StripAdverts`) keep the code as written. The corrected sweeps, `SrcAdvertStripper.FixedKeepSpans` and `AudioProcessing.FixedKeepSlices`, stand beside them. `SrcAdvertStripper.CursorAgreesWithRunningEnd` and `AudioProcessing.PositionAgreesWithFixed` prove that the corrected and as-written sweeps agree whenever advert ends never decrease and are non-negative. A negative end, as in the single advert (-5.00, -2.00), leaves the as-written cursor at -2.00 where the corrected one stays at 0.
