# Lazy cut composition of lhotse, in Dafny

This project models the cut engine of lhotse, a speech-data toolkit. It covers `lhotse/cut.py` and the cut-set
parts of `lhotse/manipulation.py`, and proves properties of the model.

A **cut** (`Cut`) is a time window `[start, start + duration)` over a feature region, with the supervision
segments it carries. A **mixed cut** (`MixedCut`) is a flat list of tracks. Each track holds a simple cut by value,
with an offset and an optional SNR, both relative to the first track. Overlaying or appending cuts never does any
signal work: it splices track lists. A **cut set** (`CutSet`) is an insertion-ordered dictionary from id to cut.

The modules:

- `Base`: the core types. Seconds are exact reals and `Result` stands for the engine's fail-fast asserts and
  exceptions, with one error per raise site. It also holds max/min/floor/ceil.
- `Primitives`: time spans, with the `overlaps`/`overspans` criteria, feature references and supervision segments.
- `Cuts`: `Cut.truncate` plus the derived views `duration`, `num_features` and `supervisions` of a mix. It also
  holds `overlay`/`append` for both variants and the `mix`/`append` helpers.
- `Composition`: `mix_cuts` and `append_cuts`, the `reduce` folds.
- `MixTruncation`: `MixedCut.truncate`. It is a method whose loop is proved against a specification function, with
  stable sorting by offset.
- `CutSets`: the dictionary.
  - `from_cuts`, `__contains__`, `__getitem__`, `__len__`, `__iter__`, `__add__`, `mixed_cuts` and `simple_cuts`.
  - The `type` tag decoder of `from_yaml`.
  - `CutSet.truncate`, as a method proved against a specification function.
- `Segmentation`: `make_cuts_from_features` and `make_windowed_cuts_from_features`, the latter as a method with
  nested loops proved against a specification function.
- `Manipulation`: `split`, `combine` and `to_manifest` for cut sets.

How the model stands in for the rest of the system:

- **Fresh ids.** `uuid4` becomes a caller-supplied `IdSource`, where `ids(k)` is the k-th id an operation mints.
- **Random offsets.** `random.uniform(0, last)` becomes `0 + (last - 0) * u` for a caller-supplied draw `u`.
- **Shuffling.** `random.shuffle` becomes a caller-supplied sequence that is required to be a permutation of the
  items.
- **Dictionaries.** A Python dictionary is the list of its keys in insertion order plus the map of current values.
  Re-assigning a key keeps its position and takes the last value.

A truncation filters the supervisions by the criterion and does not shift them (lhotse/cut.py:137-139).

## Model

| member | source | states |
|---|---|---|
| Primitives.OverspansImpliesOverlaps | lhotse/cut.py:132 | the discarding criterion (containment) is stricter than the keeping one (overlap) for non-empty segments |
| Primitives.WithOffset | lhotse/cut.py:219 | a shifted segment covers the span moved by the offset, with id, recording and duration unchanged |
| Cuts.FilterSegments | lhotse/cut.py:137-139 | filtering never adds supervisions |
| Cuts.FilterSegmentsMembers | lhotse/cut.py:137-139 | a supervision is kept iff it is one of the originals and meets the criterion |
| Cuts.FilterSegmentsConcat | lhotse/cut.py:137-139 | the filter distributes over concatenation, so the original order is kept |
| Cuts.FilterSegmentsKeepsAll | lhotse/cut.py:137-139 | when every supervision meets the criterion, none is dropped |
| Cuts.TruncateCut | lhotse/cut.py:126-141 | with a duration it succeeds iff the duration is positive and the end stays within the old end + 1e-5, with the error naming which assert failed. The result starts at start + offset and keeps the features. Its id is kept iff preserve_id, otherwise fresh. Its supervisions are those of the original that meet the criterion on the new span |
| Cuts.TruncateCutSupervisions | lhotse/cut.py:131-139 | a truncated cut carries exactly the originals that meet the criterion on its new span |
| Cuts.TruncateDefaultDuration | lhotse/cut.py:127-130 | without a duration the result ends at absolute time `duration`, which is the original end iff the cut starts at 0 |
| Cuts.TruncateDefaultDurationFailsForLateStart | lhotse/cut.py:128-129 | a cut over [10, 15) fails with default arguments; the documented default would give [10, 15) |
| Cuts.TruncateCutIntended | lhotse/cut.py:119-120 | with the documented default the truncation succeeds iff offset < duration and ends exactly at the original end |
| Cuts.TruncateIdentity | lhotse/cut.py:126-141 | truncating a cut of positive duration to its own span, with the id preserved, returns the cut when every supervision meets the criterion on that span; the filter drops any other |
| Cuts.TruncateDiscardKeepsSubset | lhotse/cut.py:132-139 | discarding excessive supervisions keeps a subset of what keeping them keeps, and both succeed or fail together |
| Cuts.SupervisionFilteringExample | lhotse/cut.py:131-139 | a supervision over [8, 14) of a 10 s cut is dropped unless excessive ones are kept, and is then unshifted |
| Cuts.MaxTrackEndBounds | lhotse/cut.py:225-227 | the largest track end bounds every track end and is attained by one |
| Cuts.MaxTrackEndConcat | lhotse/cut.py:225-227 | the maximum over concatenated track lists is the larger maximum |
| Cuts.CutEnd | lhotse/cut.py:64-66 | a cut ends at start + duration |
| Cuts.Supervisions | lhotse/cut.py:212-222 | a simple cut's own supervisions; a mix's are those of its tracks, each shifted by its track's offset, track by track |
| Cuts.Duration | lhotse/cut.py:224-227 | a simple cut's duration is its own; a mix's is defined iff it has tracks and is then the largest track end; a mix without tracks fails |
| Cuts.DurationBounds | lhotse/cut.py:224-227 | a mix's duration bounds every `offset + cut.duration` and equals one of them |
| Cuts.SelfTracks | lhotse/cut.py:160 | the anchor contributes tracks iff it is a simple cut or a non-empty mix |
| Cuts.OtherTracks | lhotse/cut.py:153-157 | the other side contributes as many tracks as it anchors with (a mix's tracks verbatim) |
| Cuts.DurationIsMaxOfSelfTracks | lhotse/cut.py:225-227 | a cut's duration is the largest end of the tracks it anchors with |
| Cuts.NumFeatures | lhotse/cut.py:233-235 | defined iff the cut has a track; it is the first track's feature dimension |
| Cuts.ShiftAll | lhotse/cut.py:218-222 | every supervision of a track is shifted by the track offset, in order |
| Cuts.MixSupervisions | lhotse/cut.py:218-222 | the mix's supervisions number the sum of the per-track counts |
| Cuts.MixSupervisionsConcat | lhotse/cut.py:218-222 | the supervisions of concatenated track lists are concatenated, so track order is kept |
| Cuts.SupervisionsOfSelfTracks | lhotse/cut.py:218-222 | a cut's supervisions are those of its anchoring tracks |
| Cuts.Overlay | lhotse/cut.py:150-161 | it succeeds iff both sides have tracks, the feature dimensions agree and the offset is at most the anchor's duration. The result has a fresh id and its tracks are the anchor's followed by the other's: a simple cut at the offset with the SNR, a mix's tracks verbatim |
| Cuts.OverlayTrackCount | lhotse/cut.py:249-260 | overlay never nests: the track count is the sum and the anchor's tracks come first |
| Cuts.OverlayDuration | lhotse/cut.py:153-160 | the overlay lasts the larger of the anchor's duration and the other's end; a mixed other keeps its own offsets |
| Cuts.OverlaySupervisions | lhotse/cut.py:218-222 | the overlay's supervisions are the anchor's then the other's, shifted by the offset when it is simple |
| Cuts.Append | lhotse/cut.py:262-270 | append succeeds iff both sides have tracks with equal feature dimension; the other is placed at the anchor's duration |
| Cuts.AppendPlacement | lhotse/cut.py:163-171 | an appended cut is the last track, at offset = the anchor's duration, and the duration grows by its length |
| Cuts.OverlayExample | lhotse/cut.py:150-161 | two 5 s cuts, the second at 2.5 s with SNR 10, give two tracks and a 7.5 s mix |
| Composition.ApplyStep | lhotse/cut.py:553-569 | one fold step, when it succeeds, yields a mix with as many tracks as both sides together |
| Composition.Reduce | lhotse/cut.py:572-583 | an empty input fails, a single input is returned unchanged, and two or more give a mix with the last minted id |
| Composition.MixCuts | lhotse/cut.py:572-576 | no cuts fail, one cut is returned unchanged, and two or more give one flat mix holding every input's tracks |
| Composition.AppendCuts | lhotse/cut.py:579-583 | no cuts fail, one cut is returned unchanged, and two or more give one flat mix holding every input's tracks |
| Composition.ReduceTrackCount | lhotse/cut.py:572-576 | a successful fold is one flat mix holding every input's tracks |
| Composition.MixCutsOfSimpleCuts | lhotse/cut.py:572-576 | mix_cuts over n >= 2 compatible simple cuts gives n tracks, the i-th being cut i at offset 0 without SNR |
| Composition.PlacedBackToBackOffsets | lhotse/cut.py:579-583 | in a back-to-back placement cut i starts at the sum of its predecessors' durations |
| Composition.AppendStepPlacement | lhotse/cut.py:262-270 | appending onto a back-to-back mix keeps the placement and adds the duration |
| Composition.AppendCutsOfSimpleCuts | lhotse/cut.py:579-583 | append_cuts places the i-th cut at the sum of its predecessors' durations, and the mix lasts the total |
| MixTruncation.InsertByOffset | lhotse/cut.py:300 | insertion adds exactly one track (as a multiset) |
| MixTruncation.InsertByOffsetSorted | lhotse/cut.py:300 | insertion keeps the tracks ordered by offset |
| MixTruncation.SortByOffset | lhotse/cut.py:300 | the sort is a permutation of the tracks |
| MixTruncation.SortByOffsetSorted | lhotse/cut.py:300 | the sorted tracks have non-decreasing offsets |
| MixTruncation.InsertByOffsetAtOffset | lhotse/cut.py:300 | an inserted track goes ahead of the tracks with the same offset |
| MixTruncation.SortByOffsetStable | lhotse/cut.py:300 | the sort is stable: tracks with equal offsets keep their order |
| MixTruncation.TruncateTrack | lhotse/cut.py:306-341 | with a duration, a track survives iff it has positive length and overlaps the new span, and it then ends within the duration. A survivor gets offset max(offset' - offset, 0), keeps its SNR, and has its cut start moved by max(offset - offset', 0), with positive length and the id rule. Its length is min(old end, offset + duration) - max(offset, offset'), and it keeps exactly the original supervisions that meet the criterion on its new span. Only the default-duration path can fail |
| MixTruncation.TruncatedTracks | lhotse/cut.py:296-341 | the survivors of k visited tracks number at most k |
| MixTruncation.MixedTruncated | lhotse/cut.py:296-342 | the result id is always fresh and there are no more tracks than before; a mix without tracks fails |
| MixTruncation.TruncatedTracksFrom | lhotse/cut.py:300-341 | with a duration, each survivor of the first k sorted tracks is the trimmed form of one of them, and each of them of positive length that overlaps the window leaves such a survivor |
| MixTruncation.MixedTruncatedTracks | lhotse/cut.py:296-342 | with a duration, truncating a non-empty mix succeeds, and its tracks are exactly the trimmed forms of the original tracks of positive length that overlap the window, each moved by the same offset |
| MixTruncation.TruncatedTracksErrSticky | lhotse/cut.py:330-337 | a failing track ends the loop with its error |
| MixTruncation.TruncatedMixFails | lhotse/cut.py:313-342 | a track whose truncation fails makes the whole mix truncation fail with that error |
| MixTruncation.TruncateMixed | lhotse/cut.py:296-342 | the loop computes exactly MixedTruncated |
| MixTruncation.TruncateAny | lhotse/cut.py:442-447 | truncation dispatches on the variant: Cut.truncate with the first id, or MixedCut.truncate |
| MixTruncation.TruncatedTracksSorted | lhotse/cut.py:300-341 | survivors are ordered by offset and bounded by the last visited track's new offset |
| MixTruncation.MixedTruncatedSorted | lhotse/cut.py:296-342 | output offsets are non-decreasing |
| MixTruncation.TruncatedTracksWithin | lhotse/cut.py:317-341 | with a duration no inner assert fails, and survivors have offset >= 0, positive length and end within the duration |
| MixTruncation.MixedTruncatedWithin | lhotse/cut.py:296-342 | with a duration, mix truncation fails iff the mix has no tracks, and the result lasts at most the duration |
| MixTruncation.DefaultDurationCanFail | lhotse/cut.py:321-322 | without a duration, tracks (0, 8 s) and (1, 5 s) truncated at 3 fail: the second track is lengthened past its end |
| MixTruncation.MixedTruncatedIntended | lhotse/cut.py:288-289 | with the documented default, truncation fails only on an empty mix, and every track ends within old duration - offset |
| MixTruncation.DefaultDurationIntended | lhotse/cut.py:288-289 | the same mix with the documented default keeps both tracks, [3, 8) and [2, 5), at offset 0 |
| MixTruncation.TruncationCanEmptyTheMix | lhotse/cut.py:313-342 | truncating past every track gives a mix without tracks whose duration fails |
| CutSets.LenIsOrderLength | lhotse/cut.py:459-460 | len is the number of listed keys |
| CutSets.Items | lhotse/cut.py:462-463 | items list each key with its value in insertion order |
| CutSets.Values | lhotse/cut.py:462-463 | iteration yields the values in insertion order |
| CutSets.Insert | lhotse/cut.py:386 | a new key goes last, an existing key keeps its place and takes the new value |
| CutSets.FromPairsKeys | lhotse/manipulation.py:52 | dict(pairs) has exactly the keys of the pairs |
| CutSets.FromPairsLastWins | lhotse/cut.py:386 | a key maps to the value of its last pair |
| CutSets.FromPairsItems | lhotse/manipulation.py:52 | dict over pairs with distinct keys lists them back in order |
| CutSets.FromCuts | lhotse/cut.py:384-386 | from_cuts keys every cut by its own id |
| CutSets.FromCutsLookup | lhotse/cut.py:384-386 | an id is a key iff some cut carries it, and it maps to the last such cut |
| CutSets.FromCutsDistinct | lhotse/cut.py:384-386 | with distinct ids, every cut is kept in order and len is the number of cuts |
| CutSets.ItemsDetermine | lhotse/cut.py:462-463 | two sets that list the same items are the same set |
| CutSets.FromCutsOfValues | lhotse/cut.py:384-386 | from_cuts over a set's own cuts gives the set back |
| CutSets.ContainsById | lhotse/cut.py:450-454 | `in` tests a cut by its id; every cut given to from_cuts is a member |
| CutSets.Get | lhotse/cut.py:456-457 | lookup succeeds iff the id is a member, else fails naming it; the cut found has that id |
| CutSets.Add | lhotse/cut.py:465-467 | union succeeds iff the id sets are disjoint, the keys are the union, and validity is kept |
| CutSets.UnionWellFormed | lhotse/cut.py:465-467 | the union of two id-disjoint sets is a well-formed dictionary |
| CutSets.AddItems | lhotse/cut.py:465-467 | the union lists a's cuts then b's, and its length is the sum |
| CutSets.KeysOfKind | lhotse/cut.py:376-382 | the selected keys are exactly those whose cut is of the requested variant |
| CutSets.MixedSimplePartition | lhotse/cut.py:376-382 | mixed_cuts and simple_cuts are disjoint, cover the set, hold the right variant and add up in length |
| CutSets.ParseCutType | lhotse/cut.py:392-398 | the tag decoder inverts `type(cut).__name__` and rejects any other tag |
| CutSets.ComputeOffset | lhotse/cut.py:432-440 | known offset types succeed: 'start' gives 0, 'end' gives duration - max, 'random' is in [0, duration - max]; others fail |
| CutSets.TruncateOne | lhotse/cut.py:428-447 | a cut no longer than the bound is passed through unchanged; a mix without tracks fails when its duration is taken |
| CutSets.TruncatedCuts | lhotse/cut.py:426-447 | a successful pass yields one cut per input |
| CutSets.CutSetTruncated | lhotse/cut.py:426-448 | the result is keyed by id |
| CutSets.TruncatedCutsErrSticky | lhotse/cut.py:426-447 | once a cut fails to truncate, the pass ends with that error |
| CutSets.TruncateAllFails | lhotse/cut.py:442-448 | a cut that fails to truncate makes the whole pass fail with that error |
| CutSets.Truncate | lhotse/cut.py:426-448 | the loop computes exactly CutSetTruncated |
| CutSets.TruncateOneBounded | lhotse/cut.py:428-447 | with a known offset type a long simple cut comes out exactly max_duration long, every mixed track ends within the bound, and any result whose duration is defined lasts at most max_duration |
| CutSets.TruncateOneOffset | lhotse/cut.py:428-447 | a cut longer than the bound is truncated at the offset the offset type computes, which lies in [0, duration - max_duration], to max_duration |
| CutSets.TruncateOneSimpleAtOffset | lhotse/cut.py:428-447 | a long simple cut becomes a simple cut max_duration long, starting at start + offset and inside the original; 'start' keeps the start and 'end' keeps the end |
| CutSets.TruncateOneMixedAtOffset | lhotse/cut.py:428-447 | a long mix becomes a mix whose tracks are exactly the original tracks of positive length that overlap [offset, offset + max_duration), each trimmed to that window and moved by the same offset |
| CutSets.CutSetTruncatedBounded | lhotse/cut.py:413-448 | with a known offset type and draws in [0, 1] the truncation of a set succeeds, every resulting cut is the truncation of some input cut, and each lasts at most max_duration |
| CutSets.Len | lhotse/cut.py:459-460 | len is the number of ids in the dictionary |
| CutSets.Contains | lhotse/cut.py:450-454 | an id is a member iff it is a key; a cut is a member iff its id is a key |
| CutSets.MixedCuts | lhotse/cut.py:376-378 | the selection holds exactly the mixed cuts of the set, under their own ids |
| CutSets.SimpleCuts | lhotse/cut.py:380-382 | the selection holds exactly the simple cuts of the set, under their own ids |
| CutSets.UnknownOffsetTypeFailsIffLonger | lhotse/cut.py:432-440 | an unknown offset type raises iff some cut is longer than the bound; otherwise all pass through |
| CutSets.TruncatedCutsSucceed | lhotse/cut.py:426-447 | with a known offset type and draws in [0, 1] the pass succeeds, and cut i is truncated on its own |
| Segmentation.WholeCuts | lhotse/cut.py:474-483 | region i becomes a simple cut spanning it with id ids(i) |
| Segmentation.CutsFromFeaturesCoverRegions | lhotse/cut.py:470-483 | with fresh ids, one cut per region in order, each covering its region with no supervisions |
| Segmentation.MakeWindowing | lhotse/cut.py:505-506 | the shift defaults to the window length |
| Segmentation.CutsFromFeatures | lhotse/cut.py:470-483 | the cut set of the whole-region cuts, keyed by id |
| Segmentation.WindowCount | lhotse/cut.py:507-515 | counting fails iff the shift is zero |
| Segmentation.CountWindows | lhotse/cut.py:507-515 | the counting code computes exactly WindowCount |
| Segmentation.Window | lhotse/cut.py:516-527 | a window keeps the region's features, has no supervisions, lasts at most the window length and ends within the region |
| Segmentation.WindowsOf | lhotse/cut.py:516-527 | window j of a region starts j shifts in, is cut short at the region end, and has its traversal id |
| Segmentation.AllWindows | lhotse/cut.py:509-527 | the traversal fails iff some region is visited with a zero shift, and then with a division by zero |
| Segmentation.AllWindowsIds | lhotse/cut.py:516-527 | cut p of the traversal is simple with id ids(p) |
| Segmentation.AppendRegionWindows | lhotse/cut.py:516-527 | the inner loop appends exactly the region's windows, numbered on from the cuts already made |
| Segmentation.WindowedCutsZeroShift | lhotse/cut.py:513-515 | a zero shift with at least one region raises a division by zero |
| Segmentation.WindowedCuts | lhotse/cut.py:486-528 | the traversal result is keyed by id |
| Segmentation.WindowedCutsFromFeatures | lhotse/cut.py:505-528 | the nested loops compute exactly WindowedCuts |
| Segmentation.WindowStartsInside | lhotse/cut.py:516-517 | every counted window starts before the region's end |
| Segmentation.WindowInsideRegion | lhotse/cut.py:516-518 | every window lies inside its region with duration in (0, window length] |
| Segmentation.AllWindowsInsideRegions | lhotse/cut.py:509-527 | every windowed cut lies inside the region it was cut from |
| Segmentation.WindowedCutsKeepsAllWindows | lhotse/cut.py:528 | with fresh ids every window is kept, in traversal order |
| Segmentation.KeepShorterWindows | lhotse/cut.py:507-513 | keeping shorter windows gives ceil(d / shift) windows of positive duration |
| Segmentation.FullWindowsWhenShiftIsLength | lhotse/cut.py:507-515 | with shift = length and no short windows, floor(d / shift) windows of full length |
| Segmentation.NotKeepingShorterWindowsAsWritten | lhotse/cut.py:513-515 | for a 10 s region, window 5 and shift 1 give 9 windows, the last 2 s long; window 1 and shift 4 give 2 windows though one at 8 s fits |
| Segmentation.FullWindowCountIsExact | lhotse/cut.py:494-495 | window j is among the full-window count iff it ends inside the region |
| Segmentation.FullWindowsAreFull | lhotse/cut.py:510-512 | each counted full window lasts exactly the window length and lies inside its region |
| Segmentation.FullWindowCountAgrees | lhotse/cut.py:513-515 | with shift = length the source's count is the full-window count |
| Manipulation.Slice | lhotse/manipulation.py:52 | slicing clamps to the length: the exact sub-range when in bounds, empty past the end, and never longer than end - begin |
| Manipulation.Parts | lhotse/manipulation.py:24 | there are k parts, and part i is dict(contents[i*chunk : min(n, (i+1)*chunk)]) |
| Manipulation.Split | lhotse/manipulation.py:18-52 | it raises iff num_splits > len; zero splits divide by zero; negative gives no parts; otherwise exactly num_splits parts |
| Manipulation.PermutationDistinctKeys | lhotse/manipulation.py:26-30 | a shuffled list of items still has distinct ids |
| Manipulation.SplitContentsDistinct | lhotse/manipulation.py:51 | the contents split draws from are a permutation of the set's items with distinct ids and the set's length |
| Manipulation.ChunkCovers | lhotse/manipulation.py:23 | for 1 <= k <= n the chunk is at least 1 and k chunks cover n items |
| Manipulation.StartIsProduct | lhotse/manipulation.py:24 | the start of part i is i * chunk |
| Manipulation.PartItems | lhotse/manipulation.py:52 | a part lists its slice in order |
| Manipulation.AllItemsPrefix | lhotse/manipulation.py:24 | the first j parts, read in order, are the first min(n, j*chunk) items |
| Manipulation.PartsDisjoint | lhotse/manipulation.py:24 | no id is in two parts |
| Manipulation.SplitPartsOf | lhotse/manipulation.py:23-52 | parts covering all n items read back as the items, are pairwise disjoint and hold at most a chunk each |
| Manipulation.SplitInOrder | lhotse/manipulation.py:23-52 | without randomize the parts read in order are the set's items, pairwise disjoint and at most a chunk each |
| Manipulation.SplitRandomized | lhotse/manipulation.py:26-52 | with randomize the parts hold a permutation of the items, pairwise disjoint and at most a chunk each |
| Manipulation.CombineUpTo | lhotse/manipulation.py:57-59 | no inputs fail, one input is returned, and any failure is a shared id |
| Manipulation.Combine | lhotse/manipulation.py:57-59 | combining no sets fails, one set is returned, and any failure is a shared id |
| Manipulation.CombineFailsIffSharedId | lhotse/manipulation.py:57-59 | combine succeeds iff the inputs are pairwise id-disjoint, and then holds the union of their ids |
| Manipulation.CombinedInOrder | lhotse/manipulation.py:57-59 | a successful combine of k sets lists their items one set after another, its length is the sum, and it is well-formed |
| Manipulation.CombineItems | lhotse/manipulation.py:57-59 | combining disjoint sets lists their items one set after another; its length is the sum |
| Manipulation.CombineSplitInOrder | lhotse/manipulation.py:57-59 | combining the parts of an in-order split gives the set back |
| Manipulation.CombineSplitRandomized | lhotse/manipulation.py:57-59 | combining the parts of a randomized split gives the same id-to-cut map |
| Manipulation.ToManifest | lhotse/manipulation.py:62-79 | the result is None iff there are no items |
| Manipulation.ToManifestOfValues | lhotse/manipulation.py:62-79 | a non-empty cut set's cuts turned back into a manifest give the set |

## Left out

- Feature and audio loading (`load_features`, `load_audio`, `FbankMixer`) are storage I/O and floating-point signal
  summing in an external class.
- `num_frames` is float division and rounding with a frame shift from `Features`, whose file is not part of this
  model.
- YAML and dict I/O (`from_dict`, `from_yaml`, `to_yaml`, `load_manifest`) are left out. Only the type-tag dispatch
  (`CutSets.ParseCutType`) and the tag names (`CutSets.TypeName`) are modelled.
- `make_cuts_from_supervisions` depends on `FeatureSet.find`, whose file is not part of this model.
- The `RecordingSet`, `SupervisionSet` and `FeatureSet` branches of `split` and `to_manifest` are left out. Those
  classes are not part of this model; only the cut-set branches are modelled.
- The `overlaps`/`overspans` predicates, `TimeSpan`, `Features` and `SupervisionSegment` come from files that are
  not part of this model. They are given as half-open intervals, with a feature region ending at start + duration.
- Float rounding is not modelled: seconds are exact reals. Equalities such as "the appended cut starts at the
  previous duration" hold exactly here but only up to rounding in the source.
- `uuid4`, `random.uniform` and `random.shuffle` are parameters, as described above. The properties of fresh ids
  hold under the stated `Injective` assumption on the id source.
- `Composition.ReduceTrackCount`: the mixed fold is also stated for arbitrary inputs through `TotalTracks`. The
  offsets a fold assigns are proved only for simple, compatible inputs (`Composition.MixCutsOfSimpleCuts`,
  `Composition.AppendCutsOfSimpleCuts`).
- `Manipulation.Split`: the manifest-type dispatch raising `ValueError` for an unknown manifest type has no
  counterpart, since only cut sets are modelled.

## Findings

| source | as written | input that shows it | evidently intended | confidence | as-written member | corrected member |
|---|---|---|---|---|---|---|
| lhotse/cut.py:128 | without `duration`, the new duration is `self.duration - (self.start + offset)` | a cut over [10, 15) truncated with default arguments: new duration -5, the assert at line 129 raises | the rest of the cut after `offset`, `self.duration - offset`, as the docstring at line 120 says | high; not executed | Cuts.TruncateDefaultDurationFailsForLateStart | Cuts.TruncateCutIntended |
| lhotse/cut.py:321-322 | without `duration`, the end decrease is `track_end - old_duration`, which is <= 0 and lengthens a track | tracks (offset 0, 8 s) and (offset 1, 5 s) truncated at offset 3: the second track becomes 5 s from cut time 2, past its end, and the assert at line 130 raises | no end trimming: each track keeps what lies after `offset`, as the docstring at lines 288-289 says | high; not executed | MixTruncation.DefaultDurationCanFail | MixTruncation.MixedTruncatedIntended |
| lhotse/cut.py:513-515 | without `keep_shorter_windows`, the count is floor(d / shift), less one when the last window overruns | a 10 s region with 5 s windows every 1 s gives 9 windows, the last three shorter than 5 s | only full-length windows, as many as fit: floor((d - cut_duration) / shift) + 1, as the comment at lines 510-512 says | medium; not executed | Segmentation.NotKeepingShorterWindowsAsWritten | Segmentation.FullWindowCount |

The operations themselves (`Cuts.TruncateCut`, `MixTruncation.MixedTruncated`, `Segmentation.WindowCount`) follow
the code as written. The corrected definitions sit beside them, with their intended properties proved:

- `Cuts.TruncateCutIntended` ends at the original end.
- `MixTruncation.MixedTruncatedIntended` never fails on a non-empty mix.
- `Segmentation.FullWindowCountIsExact` and `Segmentation.FullWindowsAreFull` show that every counted window is
  full and that no further full window fits.
