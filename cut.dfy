/** Cuts: a simple cut is a time window over a feature reference with its
    supervisions; a mixed cut is a flat list of tracks, each holding a simple
    cut with an offset and an optional SNR relative to the first track.
    Overlay and append splice tracks into one list and never nest. */
module Cuts {
  import opened Base
  import opened Primitives

  datatype Cut = Cut(
    id: string,
    start: Seconds,
    duration: Seconds,
    features: Features,
    supervisions: seq<SupervisionSegment>)

  /** One participant of a mix; it holds its cut by value. */
  datatype MixTrack = MixTrack(cut: Cut, offset: Seconds, snr: Option<Decibels>)

  datatype MixedCut = MixedCut(id: string, tracks: seq<MixTrack>)

  /** The two cut variants, which share no base class in the source. */
  datatype AnyCut = Simple(cut: Cut) | Mixed(mix: MixedCut)

  function CutEnd(c: Cut): Seconds {
    c.start + c.duration
  }

  /** End of a track relative to the beginning of the mix. */
  function TrackEnd(t: MixTrack): Seconds {
    t.offset + t.cut.duration
  }

  function Id(c: AnyCut): string {
    match c
    case Simple(s) => s.id
    case Mixed(m) => m.id
  }

  // ---------------------------------------------------------------------------
  // Truncation of a simple cut

  /** The supervision criterion of a truncation: overlap when excessive
      supervisions are kept, containment otherwise. */
  predicate Keeps(span: TimeSpan, s: SupervisionSegment, keepExcessive: bool) {
    if keepExcessive then Overlaps(span, SegmentSpan(s)) else Overspans(span, SegmentSpan(s))
  }

  /** The order-preserving filter of `ss` by the truncation criterion. */
  function FilterSegments(ss: seq<SupervisionSegment>, span: TimeSpan, keepExcessive: bool)
    : (r: seq<SupervisionSegment>)
    ensures |r| <= |ss|
  {
    if ss == [] then []
    else
      (if Keeps(span, ss[0], keepExcessive) then [ss[0]] else [])
      + FilterSegments(ss[1..], span, keepExcessive)
  }

  /** The filter keeps exactly the segments that meet the criterion. */
  lemma {:induction false} FilterSegmentsMembers(ss: seq<SupervisionSegment>, span: TimeSpan, keepExcessive: bool)
    ensures forall s :: s in FilterSegments(ss, span, keepExcessive) <==> s in ss && Keeps(span, s, keepExcessive)
  {
    if ss != [] {
      FilterSegmentsMembers(ss[1..], span, keepExcessive);
      assert ss == [ss[0]] + ss[1..];
    }
  }

  /** The filter distributes over concatenation, so it keeps the order of the segments. */
  lemma {:induction false} FilterSegmentsConcat(a: seq<SupervisionSegment>, b: seq<SupervisionSegment>,
                                                span: TimeSpan, keepExcessive: bool)
    ensures FilterSegments(a + b, span, keepExcessive)
         == FilterSegments(a, span, keepExcessive) + FilterSegments(b, span, keepExcessive)
  {
    if a != [] {
      assert (a + b)[1..] == a[1..] + b;
      FilterSegmentsConcat(a[1..], b, span, keepExcessive);
    } else {
      assert a + b == b;
    }
  }

  /** When every segment meets the criterion, nothing is dropped. */
  lemma {:induction false} FilterSegmentsKeepsAll(ss: seq<SupervisionSegment>, span: TimeSpan, keepExcessive: bool)
    requires forall s :: s in ss ==> Keeps(span, s, keepExcessive)
    ensures FilterSegments(ss, span, keepExcessive) == ss
  {
    if ss != [] {
      FilterSegmentsKeepsAll(ss[1..], span, keepExcessive);
    }
  }

  /** Cut.truncate: the sub-region starting `offset` seconds into the cut.
      Without an explicit duration the source computes `duration - (start + offset)`. */
  function TruncateCut(c: Cut, offset: Seconds, duration: Option<Seconds>,
                       keepExcessive: bool, preserveId: bool, freshId: string): (r: Result<Cut>)
    ensures duration.Some? ==>
      (r.Ok? <==> 0.0 < duration.value && offset + duration.value <= c.duration + Epsilon)
    ensures duration.Some? && r.Err? ==>
      r.error == (if duration.value <= 0.0 then NonPositiveDuration else ExceedsOriginalEnd)
    ensures r.Ok? ==> r.value.start == c.start + offset && r.value.features == c.features
    ensures r.Ok? ==> 0.0 < r.value.duration && CutEnd(r.value) <= CutEnd(c) + Epsilon
    ensures r.Ok? && duration.Some? ==> r.value.duration == duration.value
    ensures r.Ok? && preserveId ==> r.value.id == c.id
    ensures r.Ok? && !preserveId ==> r.value.id == freshId
    ensures r.Ok? ==> r.value.supervisions
                      == FilterSegments(c.supervisions, TimeSpan(r.value.start, CutEnd(r.value)), keepExcessive)
  {
    var newStart := c.start + offset;
    var newDuration := if duration.None? then c.duration - newStart else duration.value;
    if newDuration <= 0.0 then Err(NonPositiveDuration)
    else if newStart + newDuration > c.start + c.duration + Epsilon then Err(ExceedsOriginalEnd)
    else
      var span := TimeSpan(newStart, newStart + newDuration);
      Ok(Cut(
        if preserveId then c.id else freshId,
        newStart,
        newDuration,
        c.features,
        FilterSegments(c.supervisions, span, keepExcessive)))
  }

  /** The truncated cut carries exactly the supervisions of the original that
      meet the criterion on its new span. */
  lemma TruncateCutSupervisions(c: Cut, offset: Seconds, duration: Option<Seconds>,
                                keepExcessive: bool, preserveId: bool, freshId: string)
    ensures var r := TruncateCut(c, offset, duration, keepExcessive, preserveId, freshId);
      r.Ok? ==> forall s :: s in r.value.supervisions <==>
        s in c.supervisions && Keeps(TimeSpan(r.value.start, CutEnd(r.value)), s, keepExcessive)
  {
    var r := TruncateCut(c, offset, duration, keepExcessive, preserveId, freshId);
    if r.Ok? {
      FilterSegmentsMembers(c.supervisions, TimeSpan(r.value.start, CutEnd(r.value)), keepExcessive);
    }
  }

  /** Without an explicit duration the truncated cut always ends at the absolute
      time `c.duration`, which is the original end only when the cut starts at 0. */
  lemma TruncateDefaultDuration(c: Cut, offset: Seconds, keepExcessive: bool, preserveId: bool, freshId: string)
    ensures var r := TruncateCut(c, offset, None, keepExcessive, preserveId, freshId);
      && (r.Ok? <==> 0.0 < c.duration - c.start - offset && -Epsilon <= c.start)
      && (r.Ok? ==> r.value.duration == c.duration - c.start - offset && CutEnd(r.value) == c.duration)
      && (r.Ok? ==> (CutEnd(r.value) == CutEnd(c) <==> c.start == 0.0))
  {
  }

  /** A cut that starts at 10 s cannot be truncated with the default arguments,
      although the documented default (the rest of the cut) is 5 s long. */
  lemma TruncateDefaultDurationFailsForLateStart(f: Features)
    ensures TruncateCut(Cut("c", 10.0, 5.0, f, []), 0.0, None, true, false, "n") == Err(NonPositiveDuration)
    ensures TruncateCutIntended(Cut("c", 10.0, 5.0, f, []), 0.0, None, true, false, "n")
         == Ok(Cut("n", 10.0, 5.0, f, []))
  {
  }

  /** Cut.truncate with the documented default: without an explicit duration
      the cut keeps everything after `offset`. */
  function TruncateCutIntended(c: Cut, offset: Seconds, duration: Option<Seconds>,
                               keepExcessive: bool, preserveId: bool, freshId: string): (r: Result<Cut>)
    ensures duration.None? ==> (r.Ok? <==> offset < c.duration)
    ensures duration.None? && r.Ok? ==>
      r.value.start == c.start + offset && CutEnd(r.value) == CutEnd(c)
    ensures duration.Some? ==> r == TruncateCut(c, offset, duration, keepExcessive, preserveId, freshId)
  {
    var d := if duration.None? then c.duration - offset else duration.value;
    TruncateCut(c, offset, Some(d), keepExcessive, preserveId, freshId)
  }

  /** Truncating to the cut's own span with the id preserved gives back the cut,
      provided every supervision meets the criterion. */
  lemma TruncateIdentity(c: Cut, keepExcessive: bool, freshId: string)
    requires 0.0 < c.duration
    requires forall s :: s in c.supervisions ==> Keeps(TimeSpan(c.start, CutEnd(c)), s, keepExcessive)
    ensures TruncateCut(c, 0.0, Some(c.duration), keepExcessive, true, freshId) == Ok(c)
  {
    FilterSegmentsKeepsAll(c.supervisions, TimeSpan(c.start, CutEnd(c)), keepExcessive);
  }

  /** Discarding excessive supervisions keeps a subset of what keeping them would,
      for supervisions of positive duration. */
  lemma TruncateDiscardKeepsSubset(c: Cut, offset: Seconds, duration: Seconds, preserveId: bool, freshId: string)
    requires forall s :: s in c.supervisions ==> 0.0 < s.duration
    ensures var strict := TruncateCut(c, offset, Some(duration), false, preserveId, freshId);
            var loose := TruncateCut(c, offset, Some(duration), true, preserveId, freshId);
            strict.Ok? == loose.Ok? &&
            (strict.Ok? ==> forall s :: s in strict.value.supervisions ==> s in loose.value.supervisions)
  {
    var strict := TruncateCut(c, offset, Some(duration), false, preserveId, freshId);
    var loose := TruncateCut(c, offset, Some(duration), true, preserveId, freshId);
    TruncateCutSupervisions(c, offset, Some(duration), false, preserveId, freshId);
    TruncateCutSupervisions(c, offset, Some(duration), true, preserveId, freshId);
    if strict.Ok? {
      forall s | s in strict.value.supervisions
        ensures s in loose.value.supervisions
      {
        OverspansImpliesOverlaps(TimeSpan(strict.value.start, CutEnd(strict.value)), SegmentSpan(s));
      }
    }
  }

  /** A 10 s cut with a supervision over [8, 14): truncating it to its own
      duration drops the supervision unless excessive ones are kept, in which
      case it is kept unshifted. */
  lemma SupervisionFilteringExample(f: Features)
    ensures var seg := SupervisionSegment("s", "r", 8.0, 6.0);
            var c := Cut("c", 0.0, 10.0, f, [seg]);
            && TruncateCut(c, 0.0, Some(10.0), false, false, "n").value.supervisions == []
            && TruncateCut(c, 0.0, Some(10.0), true, false, "n").value.supervisions == [seg]
  {
  }

  // ---------------------------------------------------------------------------
  // Derived views of either variant

  /** A cut whose duration and feature dimension are defined: a simple cut or
      a mix with at least one track. */
  predicate Defined(c: AnyCut) {
    c.Simple? || |c.mix.tracks| > 0
  }

  /** The largest track end of a non-empty track list. */
  function MaxTrackEnd(ts: seq<MixTrack>): Seconds
    requires |ts| > 0
  {
    if |ts| == 1 then TrackEnd(ts[0])
    else Max(TrackEnd(ts[0]), MaxTrackEnd(ts[1..]))
  }

  /** MaxTrackEnd bounds every track end and is attained by one of them. */
  lemma {:induction false} MaxTrackEndBounds(ts: seq<MixTrack>)
    requires |ts| > 0
    ensures forall i :: 0 <= i < |ts| ==> TrackEnd(ts[i]) <= MaxTrackEnd(ts)
    ensures exists i :: 0 <= i < |ts| && TrackEnd(ts[i]) == MaxTrackEnd(ts)
  {
    if |ts| > 1 {
      MaxTrackEndBounds(ts[1..]);
      assert forall i :: 1 <= i < |ts| ==> ts[i] == ts[1..][i - 1];
      var k :| 0 <= k < |ts[1..]| && TrackEnd(ts[1..][k]) == MaxTrackEnd(ts[1..]);
      if TrackEnd(ts[0]) < MaxTrackEnd(ts[1..]) {
        assert TrackEnd(ts[k + 1]) == MaxTrackEnd(ts);
      } else {
        assert TrackEnd(ts[0]) == MaxTrackEnd(ts);
      }
    } else {
      assert TrackEnd(ts[0]) == MaxTrackEnd(ts);
    }
  }

  /** The maximum over a concatenation is the larger of the two maxima. */
  lemma MaxTrackEndConcat(a: seq<MixTrack>, b: seq<MixTrack>)
    requires |a| > 0 && |b| > 0
    ensures MaxTrackEnd(a + b) == Max(MaxTrackEnd(a), MaxTrackEnd(b))
  {
    var m := MaxTrackEnd(a + b);
    MaxTrackEndBounds(a);
    MaxTrackEndBounds(b);
    MaxTrackEndBounds(a + b);
    var ia :| 0 <= ia < |a| && TrackEnd(a[ia]) == MaxTrackEnd(a);
    var ib :| 0 <= ib < |b| && TrackEnd(b[ib]) == MaxTrackEnd(b);
    assert (a + b)[ia] == a[ia];
    assert (a + b)[|a| + ib] == b[ib];
    var k :| 0 <= k < |a + b| && TrackEnd((a + b)[k]) == m;
    if k < |a| {
      assert (a + b)[k] == a[k];
    } else {
      assert (a + b)[k] == b[k - |a|];
    }
  }

  /** MixedCut.duration is the largest `offset + cut.duration` over the tracks;
      it fails on a mix without tracks. */
  function Duration(c: AnyCut): (r: Result<Seconds>)
    ensures r.Ok? <==> Defined(c)
    ensures c.Simple? ==> r == Ok(c.cut.duration)
    ensures r.Ok? && c.Mixed? ==> r.value == MaxTrackEnd(c.mix.tracks)
    ensures !Defined(c) ==> r == Err(EmptyMixDuration)
  {
    match c
    case Simple(s) => Ok(s.duration)
    case Mixed(m) =>
      if |m.tracks| == 0 then Err(EmptyMixDuration) else Ok(MaxTrackEnd(m.tracks))
  }

  /** A mix's duration bounds the end of each of its tracks and is the end of one of them. */
  lemma DurationBounds(c: AnyCut)
    requires c.Mixed? && Duration(c).Ok?
    ensures forall t :: t in c.mix.tracks ==> TrackEnd(t) <= Duration(c).value
    ensures exists t :: t in c.mix.tracks && TrackEnd(t) == Duration(c).value
  {
    MaxTrackEndBounds(c.mix.tracks);
    var i :| 0 <= i < |c.mix.tracks| && TrackEnd(c.mix.tracks[i]) == MaxTrackEnd(c.mix.tracks);
    assert c.mix.tracks[i] in c.mix.tracks;
  }

  /** The tracks a cut contributes as the anchor of an overlay: a simple cut
      becomes one track at offset 0 without SNR, a mix contributes its own tracks. */
  function SelfTracks(c: AnyCut): (r: seq<MixTrack>)
    ensures |r| > 0 <==> Defined(c)
  {
    match c
    case Simple(s) => [MixTrack(s, 0.0, None)]
    case Mixed(m) => m.tracks
  }

  /** The tracks a cut contributes as the other side of an overlay: a mix's
      tracks are copied verbatim, ignoring the requested offset and SNR. */
  function OtherTracks(c: AnyCut, offset: Seconds, snr: Option<Decibels>): (r: seq<MixTrack>)
    ensures |r| == |SelfTracks(c)|
  {
    match c
    case Simple(s) => [MixTrack(s, offset, snr)]
    case Mixed(m) => m.tracks
  }

  function TrackCount(c: AnyCut): nat {
    |SelfTracks(c)|
  }

  /** The duration of a cut is the largest end of the tracks it anchors with. */
  lemma DurationIsMaxOfSelfTracks(c: AnyCut)
    requires Defined(c)
    ensures Duration(c) == Ok(MaxTrackEnd(SelfTracks(c)))
  {
  }

  /** num_features of a simple cut, or of the first track of a mix. */
  function NumFeatures(c: AnyCut): (r: Result<int>)
    ensures r.Ok? <==> Defined(c)
    ensures r.Ok? ==> r.value == SelfTracks(c)[0].cut.features.numFeatures
    ensures !Defined(c) ==> r == Err(EmptyMixIndex)
  {
    match c
    case Simple(s) => Ok(s.features.numFeatures)
    case Mixed(m) =>
      if |m.tracks| == 0 then Err(EmptyMixIndex) else Ok(m.tracks[0].cut.features.numFeatures)
  }

  // ---------------------------------------------------------------------------
  // Supervisions of a mix

  function ShiftAll(ss: seq<SupervisionSegment>, delta: Seconds): (r: seq<SupervisionSegment>)
    ensures |r| == |ss| && forall i :: 0 <= i < |ss| ==> r[i] == WithOffset(ss[i], delta)
  {
    seq(|ss|, i requires 0 <= i < |ss| => WithOffset(ss[i], delta))
  }

  /** Number of supervisions over all tracks. */
  function SegmentCount(ts: seq<MixTrack>): nat {
    if ts == [] then 0 else |ts[0].cut.supervisions| + SegmentCount(ts[1..])
  }

  /** MixedCut.supervisions: each track's supervisions shifted by the track
      offset, concatenated in track order. */
  function MixSupervisions(ts: seq<MixTrack>): (r: seq<SupervisionSegment>)
    ensures |r| == SegmentCount(ts)
  {
    if ts == [] then []
    else ShiftAll(ts[0].cut.supervisions, ts[0].offset) + MixSupervisions(ts[1..])
  }

  lemma {:induction false} MixSupervisionsConcat(a: seq<MixTrack>, b: seq<MixTrack>)
    ensures MixSupervisions(a + b) == MixSupervisions(a) + MixSupervisions(b)
  {
    if a == [] {
      assert a + b == b;
    } else {
      assert (a + b)[1..] == a[1..] + b;
      MixSupervisionsConcat(a[1..], b);
    }
  }

  function Supervisions(c: AnyCut): seq<SupervisionSegment> {
    match c
    case Simple(s) => s.supervisions
    case Mixed(m) => MixSupervisions(m.tracks)
  }

  /** A cut's supervisions are those of the tracks it anchors with: shifting
      by the anchor's offset 0 changes nothing. */
  lemma SupervisionsOfSelfTracks(c: AnyCut)
    ensures Supervisions(c) == MixSupervisions(SelfTracks(c))
  {
    if c.Simple? {
      var ss := c.cut.supervisions;
      assert ShiftAll(ss, 0.0) == ss;
      assert MixSupervisions(SelfTracks(c)) == ShiftAll(ss, 0.0) + MixSupervisions([]);
    }
  }

  // ---------------------------------------------------------------------------
  // Overlay and append (Cut.overlay, MixedCut.overlay and the `mix` helper)

  /** Overlay `other` onto `self`, shifting it by `offsetOtherBy`. The feature
      dimensions must agree and the offset may not exceed self's duration. */
  function Overlay(self: AnyCut, other: AnyCut, offsetOtherBy: Seconds, snr: Option<Decibels>,
                   freshId: string): (r: Result<MixedCut>)
    ensures r.Ok? <==>
      && Defined(self) && Defined(other)
      && NumFeatures(self) == NumFeatures(other)
      && offsetOtherBy <= Duration(self).value
    ensures r.Ok? ==> r.value.id == freshId
    ensures r.Ok? ==> r.value.tracks == SelfTracks(self) + OtherTracks(other, offsetOtherBy, snr)
  {
    var selfFeatures :- NumFeatures(self);
    var otherFeatures :- NumFeatures(other);
    if selfFeatures != otherFeatures then Err(FeatureDimMismatch)
    else
      // self has tracks here, so its duration is defined
      var selfDuration := Duration(self).value;
      if offsetOtherBy > selfDuration then Err(OffsetBeyondDuration)
      else Ok(MixedCut(freshId, SelfTracks(self) + OtherTracks(other, offsetOtherBy, snr)))
  }

  /** Overlaying never nests: the result holds exactly the tracks of both sides. */
  lemma OverlayTrackCount(self: AnyCut, other: AnyCut, offsetOtherBy: Seconds, snr: Option<Decibels>, freshId: string)
    requires Overlay(self, other, offsetOtherBy, snr, freshId).Ok?
    ensures var m := Overlay(self, other, offsetOtherBy, snr, freshId).value;
      |m.tracks| == TrackCount(self) + TrackCount(other)
      && m.tracks[..TrackCount(self)] == SelfTracks(self)
  {
  }

  /** The duration of an overlay is the larger of the anchor's duration and the
      end of the other cut; a mixed `other` keeps its own offsets. */
  lemma OverlayDuration(self: AnyCut, other: AnyCut, offsetOtherBy: Seconds, snr: Option<Decibels>, freshId: string)
    requires Overlay(self, other, offsetOtherBy, snr, freshId).Ok?
    ensures var d := Duration(Mixed(Overlay(self, other, offsetOtherBy, snr, freshId).value));
      d.Ok? &&
      d.value == Max(Duration(self).value,
                     if other.Simple? then offsetOtherBy + other.cut.duration else Duration(other).value)
  {
    var ts := OtherTracks(other, offsetOtherBy, snr);
    MaxTrackEndConcat(SelfTracks(self), ts);
  }

  /** The supervisions of an overlay are the anchor's followed by the other
      cut's, the latter shifted by the offset when `other` is simple. */
  lemma OverlaySupervisions(self: AnyCut, other: AnyCut, offsetOtherBy: Seconds, snr: Option<Decibels>, freshId: string)
    requires Overlay(self, other, offsetOtherBy, snr, freshId).Ok?
    ensures Supervisions(Mixed(Overlay(self, other, offsetOtherBy, snr, freshId).value))
         == Supervisions(self)
            + (if other.Simple? then ShiftAll(other.cut.supervisions, offsetOtherBy) else Supervisions(other))
  {
    var ts := OtherTracks(other, offsetOtherBy, snr);
    MixSupervisionsConcat(SelfTracks(self), ts);
    SupervisionsOfSelfTracks(self);
    if other.Simple? {
      assert MixSupervisions(ts) == ShiftAll(other.cut.supervisions, offsetOtherBy) + MixSupervisions([]);
    }
  }

  /** Append `other` right after `self`: an overlay at offset `self.duration`. */
  function Append(self: AnyCut, other: AnyCut, snr: Option<Decibels>, freshId: string): (r: Result<MixedCut>)
    ensures r.Ok? <==> Defined(self) && Defined(other) && NumFeatures(self) == NumFeatures(other)
    ensures r.Ok? ==> r.value.tracks == SelfTracks(self) + OtherTracks(other, Duration(self).value, snr)
  {
    match Duration(self)
    case Err(e) => Err(e)
    case Ok(selfDuration) => Overlay(self, other, selfDuration, snr, freshId)
  }

  /** An appended simple cut starts exactly where the anchor ends, and the
      duration grows by the appended cut's duration. */
  lemma AppendPlacement(self: AnyCut, other: Cut, snr: Option<Decibels>, freshId: string)
    requires Append(self, Simple(other), snr, freshId).Ok?
    requires 0.0 <= other.duration
    ensures var m := Append(self, Simple(other), snr, freshId).value;
      && m.tracks[|m.tracks| - 1] == MixTrack(other, Duration(self).value, snr)
      && Duration(Mixed(m)) == Ok(Duration(self).value + other.duration)
  {
    OverlayDuration(self, Simple(other), Duration(self).value, snr, freshId);
  }

  /** Two 5 s cuts, the second overlaid at 2.5 s with SNR 10, give a 7.5 s mix. */
  lemma OverlayExample(f: Features)
    ensures var a := Cut("a", 0.0, 5.0, f, []);
            var b := Cut("b", 0.0, 5.0, f, []);
            var r := Overlay(Simple(a), Simple(b), 2.5, Some(10.0), "m");
            && r.Ok?
            && r.value.tracks == [MixTrack(a, 0.0, None), MixTrack(b, 2.5, Some(10.0))]
            && Duration(Mixed(r.value)) == Ok(7.5)
  {
    var a := Cut("a", 0.0, 5.0, f, []);
    var b := Cut("b", 0.0, 5.0, f, []);
    OverlayDuration(Simple(a), Simple(b), 2.5, Some(10.0), "m");
  }
}
