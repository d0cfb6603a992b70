/** MixedCut.truncate: the tracks are visited in stable offset order; each is
    dropped, or trimmed at its start and end and shifted so that the new mix
    begins at the truncation offset. */
module MixTruncation {
  import opened Base
  import opened Primitives
  import opened Cuts

  // ---------------------------------------------------------------------------
  // Stable ordering of the tracks by offset (`sorted(tracks, key=offset)`)

  predicate SortedByOffset(ts: seq<MixTrack>) {
    forall i, j :: 0 <= i < j < |ts| ==> ts[i].offset <= ts[j].offset
  }

  /** Insert `t` before the first track whose offset is not smaller. */
  function InsertByOffset(t: MixTrack, ts: seq<MixTrack>): (r: seq<MixTrack>)
    ensures |r| == |ts| + 1
    ensures multiset(r) == multiset(ts) + multiset{t}
  {
    if ts == [] || t.offset <= ts[0].offset then [t] + ts
    else
      assert ts == [ts[0]] + ts[1..];
      [ts[0]] + InsertByOffset(t, ts[1..])
  }

  /** Insertion keeps a sorted sequence sorted. */
  lemma {:induction false} InsertByOffsetSorted(t: MixTrack, ts: seq<MixTrack>)
    requires SortedByOffset(ts)
    ensures SortedByOffset(InsertByOffset(t, ts))
  {
    if ts != [] && t.offset > ts[0].offset {
      var rest := InsertByOffset(t, ts[1..]);
      InsertByOffsetSorted(t, ts[1..]);
      forall u | u in rest
        ensures ts[0].offset <= u.offset
      {
        InsertedFrom(t, ts[1..], u);
        if u != t {
          var j :| 0 <= j < |ts[1..]| && ts[1..][j] == u;
          assert ts[j + 1] == u;
        }
      }
      ConsSorted(ts[0], rest);
    }
  }

  /** A track of the insertion result is the inserted one or an old one. */
  lemma InsertedFrom(t: MixTrack, ts: seq<MixTrack>, u: MixTrack)
    requires u in InsertByOffset(t, ts)
    ensures u == t || u in ts
  {
    assert u in multiset(InsertByOffset(t, ts));
  }

  /** A track no later than every track of a sorted sequence can go in front. */
  lemma ConsSorted(x: MixTrack, rest: seq<MixTrack>)
    requires SortedByOffset(rest)
    requires forall u :: u in rest ==> x.offset <= u.offset
    ensures SortedByOffset([x] + rest)
  {
    var r := [x] + rest;
    forall i, j | 0 <= i < j < |r|
      ensures r[i].offset <= r[j].offset
    {
      assert r[j] == rest[j - 1];
      if i == 0 {
        assert r[j] in rest;
      } else {
        assert r[i] == rest[i - 1];
      }
    }
  }

  /** Python's `sorted` with an offset key: a stable insertion sort. */
  function SortByOffset(ts: seq<MixTrack>): (r: seq<MixTrack>)
    ensures |r| == |ts|
    ensures multiset(r) == multiset(ts)
  {
    if ts == [] then []
    else
      assert ts == [ts[0]] + ts[1..];
      InsertByOffset(ts[0], SortByOffset(ts[1..]))
  }

  /** The result of the sort is ordered by offset. */
  lemma {:induction false} SortByOffsetSorted(ts: seq<MixTrack>)
    ensures SortedByOffset(SortByOffset(ts))
  {
    if ts != [] {
      SortByOffsetSorted(ts[1..]);
      InsertByOffsetSorted(ts[0], SortByOffset(ts[1..]));
    }
  }

  /** The tracks at exactly offset `o`, in their original order. */
  function AtOffset(ts: seq<MixTrack>, o: Seconds): (r: seq<MixTrack>)
    ensures |r| <= |ts|
  {
    if ts == [] then []
    else (if ts[0].offset == o then [ts[0]] else []) + AtOffset(ts[1..], o)
  }

  /** Inserting `t` into a sorted sequence puts it ahead of every track with
      the same offset. */
  lemma {:induction false} InsertByOffsetAtOffset(t: MixTrack, ts: seq<MixTrack>, o: Seconds)
    requires SortedByOffset(ts)
    ensures AtOffset(InsertByOffset(t, ts), o)
         == (if t.offset == o then [t] else []) + AtOffset(ts, o)
  {
    if ts == [] || t.offset <= ts[0].offset {
      assert ([t] + ts)[1..] == ts;
    } else {
      var rest := InsertByOffset(t, ts[1..]);
      assert ([ts[0]] + rest)[1..] == rest;
      assert SortedByOffset(ts[1..]) by {
        forall i, j | 0 <= i < j < |ts[1..]|
          ensures ts[1..][i].offset <= ts[1..][j].offset
        {
          assert ts[1..][i] == ts[i + 1] && ts[1..][j] == ts[j + 1];
        }
      }
      InsertByOffsetAtOffset(t, ts[1..], o);
      var head := if ts[0].offset == o then [ts[0]] else [];
      var mine := if t.offset == o then [t] else [];
      assert head == [] || mine == [];
      assert AtOffset([ts[0]] + rest, o) == head + (mine + AtOffset(ts[1..], o));
      assert AtOffset(ts, o) == head + AtOffset(ts[1..], o);
    }
  }

  /** The sort is stable: tracks sharing an offset keep their relative order. */
  lemma {:induction false} SortByOffsetStable(ts: seq<MixTrack>, o: Seconds)
    ensures AtOffset(SortByOffset(ts), o) == AtOffset(ts, o)
  {
    if ts != [] {
      SortByOffsetStable(ts[1..], o);
      SortByOffsetSorted(ts[1..]);
      InsertByOffsetAtOffset(ts[0], SortByOffset(ts[1..]), o);
    }
  }

  // ---------------------------------------------------------------------------
  // One track of the truncation

  /** Where the truncated mix ends, relative to the old mix's beginning. */
  function NewMixEnd(oldDuration: Seconds, offset: Seconds, duration: Option<Seconds>): Seconds {
    if duration.None? then oldDuration - offset else offset + duration.value
  }

  /** The fate of one track: dropped (`Ok(None)`), trimmed and shifted
      (`Ok(Some(..))`), or a failed assertion of the inner Cut.truncate. */
  function TruncateTrack(t: MixTrack, offset: Seconds, duration: Option<Seconds>, oldDuration: Seconds,
                         keepExcessive: bool, preserveId: bool, freshId: string): (r: Result<Option<MixTrack>>)
    ensures duration.Some? ==>
      && r.Ok?
      && (r.value.Some? <==>
            && 0.0 < t.cut.duration && 0.0 < duration.value
            && Overlaps(TimeSpan(t.offset, TrackEnd(t)), TimeSpan(offset, offset + duration.value)))
    ensures duration.Some? && r.Ok? && r.value.Some? ==>
      && TrackEnd(r.value.value) <= duration.value
      && r.value.value.cut.duration == Min(TrackEnd(t), offset + duration.value) - Max(offset, t.offset)
    ensures r.Ok? && r.value.Some? ==>
      var n := r.value.value;
      && n.offset == Max(t.offset - offset, 0.0)
      && n.snr == t.snr
      && 0.0 < n.cut.duration
      && n.cut.start == t.cut.start + Max(offset - t.offset, 0.0)
      && n.cut.features == t.cut.features
      && n.cut.id == (if preserveId then t.cut.id else freshId)
      && n.cut.supervisions == FilterSegments(t.cut.supervisions, TimeSpan(n.cut.start, CutEnd(n.cut)), keepExcessive)
    ensures r.Err? ==> duration.None? && r.error == ExceedsOriginalEnd
  {
    var cutOffset := Max(offset - t.offset, 0.0);
    var trackOffset := Max(t.offset - offset, 0.0);
    var trackEnd := TrackEnd(t);
    var newMixEnd := NewMixEnd(oldDuration, offset, duration);
    if trackEnd < offset then Ok(None)
    else
      var decrease :=
        if trackEnd > newMixEnd then
          (if duration.Some? then trackEnd - newMixEnd else trackEnd - oldDuration)
        else 0.0;
      var newDuration := t.cut.duration - cutOffset - decrease;
      if newDuration <= 0.0 then Ok(None)
      else
        var c :- TruncateCut(t.cut, cutOffset, Some(newDuration), keepExcessive, preserveId, freshId);
        Ok(Some(MixTrack(c, trackOffset, t.snr)))
  }

  // ---------------------------------------------------------------------------
  // The whole mix

  /** The tracks produced from the first `k` sorted tracks; the track at sorted
      position j draws id ids(j + 1). */
  function TruncatedTracks(sorted: seq<MixTrack>, k: nat, offset: Seconds, duration: Option<Seconds>,
                           oldDuration: Seconds, keepExcessive: bool, preserveId: bool,
                           ids: IdSource): (r: Result<seq<MixTrack>>)
    requires k <= |sorted|
    ensures r.Ok? ==> |r.value| <= k
  {
    if k == 0 then Ok([])
    else
      var done :- TruncatedTracks(sorted, k - 1, offset, duration, oldDuration, keepExcessive, preserveId, ids);
      var step :- TruncateTrack(sorted[k - 1], offset, duration, oldDuration, keepExcessive, preserveId, ids(k));
      Ok(if step.Some? then done + [step.value] else done)
  }

  /** The loop over the sorted tracks and the new mix it builds, with the fresh id ids(0). */
  function TruncatedMix(sorted: seq<MixTrack>, offset: Seconds, duration: Option<Seconds>, oldDuration: Seconds,
                        keepExcessive: bool, preserveId: bool, ids: IdSource): (r: Result<MixedCut>)
    ensures r.Ok? ==> r.value.id == ids(0) && |r.value.tracks| <= |sorted|
  {
    var tracks :- TruncatedTracks(sorted, |sorted|, offset, duration, oldDuration, keepExcessive, preserveId, ids);
    Ok(MixedCut(ids(0), tracks))
  }

  /** MixedCut.truncate as a value: the mix id is always fresh (ids(0)), and
      a mix without tracks fails when its duration is taken. */
  function MixedTruncated(m: MixedCut, offset: Seconds, duration: Option<Seconds>,
                          keepExcessive: bool, preserveId: bool, ids: IdSource): (r: Result<MixedCut>)
    ensures |m.tracks| == 0 ==> r == Err(EmptyMixDuration)
    ensures r.Ok? ==> r.value.id == ids(0) && |r.value.tracks| <= |m.tracks|
  {
    var oldDuration :- Duration(Mixed(m));
    TruncatedMix(SortByOffset(m.tracks), offset, duration, oldDuration, keepExcessive, preserveId, ids)
  }

  /** One more sorted track: the loop fails with its error, or keeps the survivor if any. */
  lemma TruncatedTracksStep(sorted: seq<MixTrack>, k: nat, offset: Seconds, duration: Option<Seconds>,
                            oldDuration: Seconds, keepExcessive: bool, preserveId: bool, ids: IdSource,
                            done: seq<MixTrack>)
    requires k < |sorted|
    requires TruncatedTracks(sorted, k, offset, duration, oldDuration, keepExcessive, preserveId, ids) == Ok(done)
    ensures var step := TruncateTrack(sorted[k], offset, duration, oldDuration, keepExcessive, preserveId, ids(k + 1));
      TruncatedTracks(sorted, k + 1, offset, duration, oldDuration, keepExcessive, preserveId, ids)
      == if step.Err? then Err(step.error)
         else Ok(if step.value.Some? then done + [step.value.value] else done)
  {
  }

  /** A track whose truncation fails ends the loop, and the mix truncation, with its error. */
  lemma TruncatedMixFails(sorted: seq<MixTrack>, k: nat, offset: Seconds, duration: Option<Seconds>,
                          oldDuration: Seconds, keepExcessive: bool, preserveId: bool, ids: IdSource,
                          done: seq<MixTrack>)
    requires k < |sorted|
    requires TruncatedTracks(sorted, k, offset, duration, oldDuration, keepExcessive, preserveId, ids) == Ok(done)
    requires TruncateTrack(sorted[k], offset, duration, oldDuration, keepExcessive, preserveId, ids(k + 1)).Err?
    ensures TruncatedMix(sorted, offset, duration, oldDuration, keepExcessive, preserveId, ids)
         == Err(TruncateTrack(sorted[k], offset, duration, oldDuration, keepExcessive, preserveId, ids(k + 1)).error)
  {
    TruncatedTracksStep(sorted, k, offset, duration, oldDuration, keepExcessive, preserveId, ids, done);
    TruncatedTracksErrSticky(sorted, k + 1, |sorted|, offset, duration, oldDuration, keepExcessive, preserveId, ids);
  }

  /** A failure at some track is final: later prefixes fail with the same error. */
  lemma {:induction false} TruncatedTracksErrSticky(sorted: seq<MixTrack>, k: nat, n: nat, offset: Seconds,
                                                    duration: Option<Seconds>, oldDuration: Seconds,
                                                    keepExcessive: bool, preserveId: bool, ids: IdSource)
    requires k <= n <= |sorted|
    requires TruncatedTracks(sorted, k, offset, duration, oldDuration, keepExcessive, preserveId, ids).Err?
    ensures TruncatedTracks(sorted, n, offset, duration, oldDuration, keepExcessive, preserveId, ids)
         == TruncatedTracks(sorted, k, offset, duration, oldDuration, keepExcessive, preserveId, ids)
  {
    if k < n {
      TruncatedTracksErrSticky(sorted, k, n - 1, offset, duration, oldDuration, keepExcessive, preserveId, ids);
    }
  }

  /** The loop of MixedCut.truncate: visit the sorted tracks, appending the
      survivors to `newTracks`. */
  method TruncateMixed(m: MixedCut, offset: Seconds, duration: Option<Seconds>,
                       keepExcessive: bool, preserveId: bool, ids: IdSource) returns (r: Result<MixedCut>)
    ensures r == MixedTruncated(m, offset, duration, keepExcessive, preserveId, ids)
  {
    var d := Duration(Mixed(m));
    if d.Err? {
      return Err(d.error);
    }
    var oldDuration := d.value;
    var sorted := SortByOffset(m.tracks);
    var newTracks: seq<MixTrack> := [];
    var i := 0;
    while i < |sorted|
      invariant 0 <= i <= |sorted|
      invariant TruncatedTracks(sorted, i, offset, duration, oldDuration, keepExcessive, preserveId, ids)
             == Ok(newTracks)
    {
      var step := TruncateTrack(sorted[i], offset, duration, oldDuration, keepExcessive, preserveId, ids(i + 1));
      if step.Err? {
        TruncatedMixFails(sorted, i, offset, duration, oldDuration, keepExcessive, preserveId, ids, newTracks);
        return Err(step.error);
      }
      TruncatedTracksStep(sorted, i, offset, duration, oldDuration, keepExcessive, preserveId, ids, newTracks);
      if step.value.Some? {
        newTracks := newTracks + [step.value.value];
      }
      i := i + 1;
    }
    return Ok(MixedCut(ids(0), newTracks));
  }

  /** The dispatch on the cut variant for a truncation. */
  function TruncateAny(c: AnyCut, offset: Seconds, duration: Option<Seconds>,
                       keepExcessive: bool, preserveId: bool, ids: IdSource): (r: Result<AnyCut>)
    ensures c.Simple? ==> r == (var t := TruncateCut(c.cut, offset, duration, keepExcessive, preserveId, ids(0));
                                if t.Ok? then Ok(Simple(t.value)) else Err(t.error))
    ensures c.Mixed? ==> r == (var t := MixedTruncated(c.mix, offset, duration, keepExcessive, preserveId, ids);
                               if t.Ok? then Ok(Mixed(t.value)) else Err(t.error))
  {
    match c
    case Simple(s) =>
      var t :- TruncateCut(s, offset, duration, keepExcessive, preserveId, ids(0));
      Ok(Simple(t))
    case Mixed(m) =>
      var t :- MixedTruncated(m, offset, duration, keepExcessive, preserveId, ids);
      Ok(Mixed(t))
  }

  // ---------------------------------------------------------------------------
  // Properties

  /** Survivors of the first `k` sorted tracks are ordered by offset and lie no
      later than the shifted offset of the k-th sorted track. */
  lemma {:induction false} TruncatedTracksSorted(sorted: seq<MixTrack>, k: nat, offset: Seconds,
                                                 duration: Option<Seconds>, oldDuration: Seconds,
                                                 keepExcessive: bool, preserveId: bool, ids: IdSource)
    requires k <= |sorted| && SortedByOffset(sorted)
    requires TruncatedTracks(sorted, k, offset, duration, oldDuration, keepExcessive, preserveId, ids).Ok?
    ensures var ts := TruncatedTracks(sorted, k, offset, duration, oldDuration, keepExcessive, preserveId, ids).value;
      && SortedByOffset(ts)
      && (k > 0 ==> forall t :: t in ts ==> t.offset <= Max(sorted[k - 1].offset - offset, 0.0))
  {
    if k > 0 {
      TruncatedTracksSorted(sorted, k - 1, offset, duration, oldDuration, keepExcessive, preserveId, ids);
      var done := TruncatedTracks(sorted, k - 1, offset, duration, oldDuration, keepExcessive, preserveId, ids).value;
      var bound := Max(sorted[k - 1].offset - offset, 0.0);
      assert forall t :: t in done ==> t.offset <= bound by {
        if k > 1 {
          assert sorted[k - 2].offset <= sorted[k - 1].offset;
          assert Max(sorted[k - 2].offset - offset, 0.0) <= bound;
        }
      }
      var step := TruncateTrack(sorted[k - 1], offset, duration, oldDuration, keepExcessive, preserveId, ids(k));
      assert TruncatedTracks(sorted, k, offset, duration, oldDuration, keepExcessive, preserveId, ids)
          == Ok(if step.value.Some? then done + [step.value.value] else done);
      if step.value.Some? {
        SnocSorted(done, step.value.value);
      }
    }
  }

  /** A track no earlier than every track of a sorted sequence can go at its end. */
  lemma SnocSorted(done: seq<MixTrack>, x: MixTrack)
    requires SortedByOffset(done)
    requires forall t :: t in done ==> t.offset <= x.offset
    ensures SortedByOffset(done + [x])
    ensures forall t :: t in done + [x] ==> t.offset <= x.offset
  {
    var r := done + [x];
    forall i, j | 0 <= i < j < |r|
      ensures r[i].offset <= r[j].offset
    {
      assert r[i] == done[i];
      if j < |done| {
        assert r[j] == done[j];
      } else {
        assert done[i] in done;
      }
    }
  }

  /** Output offsets are non-decreasing. */
  lemma MixedTruncatedSorted(m: MixedCut, offset: Seconds, duration: Option<Seconds>,
                             keepExcessive: bool, preserveId: bool, ids: IdSource)
    requires MixedTruncated(m, offset, duration, keepExcessive, preserveId, ids).Ok?
    ensures SortedByOffset(MixedTruncated(m, offset, duration, keepExcessive, preserveId, ids).value.tracks)
  {
    var sorted := SortByOffset(m.tracks);
    SortByOffsetSorted(m.tracks);
    TruncatedTracksSorted(sorted, |sorted|, offset, duration, Duration(Mixed(m)).value,
                          keepExcessive, preserveId, ids);
  }

  /** With an explicit duration no inner assertion fails, and every survivor
      has positive duration, a non-negative offset, and ends within `d`. */
  lemma {:induction false} TruncatedTracksWithin(sorted: seq<MixTrack>, k: nat, offset: Seconds, d: Seconds,
                                                 oldDuration: Seconds, keepExcessive: bool, preserveId: bool,
                                                 ids: IdSource)
    requires k <= |sorted|
    ensures var r := TruncatedTracks(sorted, k, offset, Some(d), oldDuration, keepExcessive, preserveId, ids);
      && r.Ok?
      && forall t :: t in r.value ==> 0.0 <= t.offset && 0.0 < t.cut.duration && TrackEnd(t) <= d
  {
    if k > 0 {
      TruncatedTracksWithin(sorted, k - 1, offset, d, oldDuration, keepExcessive, preserveId, ids);
    }
  }

  /** MixedCut.truncate with an explicit duration fails only on a mix without
      tracks; the result is no longer than `d`. */
  lemma MixedTruncatedWithin(m: MixedCut, offset: Seconds, d: Seconds,
                             keepExcessive: bool, preserveId: bool, ids: IdSource)
    ensures var r := MixedTruncated(m, offset, Some(d), keepExcessive, preserveId, ids);
      && (r.Ok? <==> |m.tracks| > 0)
      && (r.Ok? ==> forall t :: t in r.value.tracks ==>
            0.0 <= t.offset && 0.0 < t.cut.duration && TrackEnd(t) <= d)
      && (r.Ok? && |r.value.tracks| > 0 ==> Duration(Mixed(r.value)).value <= d)
  {
    if |m.tracks| > 0 {
      var sorted := SortByOffset(m.tracks);
      TruncatedTracksWithin(sorted, |sorted|, offset, d, Duration(Mixed(m)).value, keepExcessive, preserveId, ids);
      var r := MixedTruncated(m, offset, Some(d), keepExcessive, preserveId, ids);
      if r.Ok? && |r.value.tracks| > 0 {
        DurationBounds(Mixed(r.value));
      }
    }
  }

  /** Track `n` is the part of track `t` inside the new span [offset, offset + d)
      of the mix, re-based to that span. */
  predicate TrimmedFrom(n: MixTrack, t: MixTrack, offset: Seconds, d: Seconds) {
    && n.offset == Max(t.offset - offset, 0.0)
    && n.cut.start == t.cut.start + Max(offset - t.offset, 0.0)
    && n.cut.duration == Min(TrackEnd(t), offset + d) - Max(offset, t.offset)
    && n.snr == t.snr
    && n.cut.features == t.cut.features
  }

  /** Track `t` has some audio inside the new span [offset, offset + d). */
  predicate Survives(t: MixTrack, offset: Seconds, d: Seconds) {
    && 0.0 < t.cut.duration && 0.0 < d
    && Overlaps(TimeSpan(t.offset, TrackEnd(t)), TimeSpan(offset, offset + d))
  }

  /** `tracks` holds exactly the trimmed parts of `orig` inside [offset, offset + d):
      each is the part of some original track, and each original track with
      audio in that span leaves one. */
  predicate KeepsTrimmed(tracks: seq<MixTrack>, orig: seq<MixTrack>, offset: Seconds, d: Seconds) {
    && (forall n :: n in tracks ==> exists t :: t in orig && TrimmedFrom(n, t, offset, d))
    && (forall t :: t in orig && Survives(t, offset, d) ==> exists n :: n in tracks && TrimmedFrom(n, t, offset, d))
  }

  /** With an explicit duration, each survivor of the first `k` sorted tracks is
      the trimmed part of one of them, and every track with audio in the new
      span leaves such a survivor. */
  lemma {:induction false} TruncatedTracksFrom(sorted: seq<MixTrack>, k: nat, offset: Seconds, d: Seconds,
                                               oldDuration: Seconds, keepExcessive: bool, preserveId: bool,
                                               ids: IdSource)
    requires k <= |sorted|
    ensures var r := TruncatedTracks(sorted, k, offset, Some(d), oldDuration, keepExcessive, preserveId, ids);
      && r.Ok?
      && (forall n :: n in r.value ==> exists j :: 0 <= j < k && TrimmedFrom(n, sorted[j], offset, d))
      && (forall j :: 0 <= j < k && Survives(sorted[j], offset, d) ==>
            exists n :: n in r.value && TrimmedFrom(n, sorted[j], offset, d))
  {
    TruncatedTracksWithin(sorted, k, offset, d, oldDuration, keepExcessive, preserveId, ids);
    if k > 0 {
      TruncatedTracksFrom(sorted, k - 1, offset, d, oldDuration, keepExcessive, preserveId, ids);
      var prev := TruncatedTracks(sorted, k - 1, offset, Some(d), oldDuration, keepExcessive, preserveId, ids).value;
      var t := sorted[k - 1];
      var step := TruncateTrack(t, offset, Some(d), oldDuration, keepExcessive, preserveId, ids(k));
      TruncatedTracksStep(sorted, k - 1, offset, Some(d), oldDuration, keepExcessive, preserveId, ids, prev);
      var all := if step.value.Some? then prev + [step.value.value] else prev;
      assert TruncatedTracks(sorted, k, offset, Some(d), oldDuration, keepExcessive, preserveId, ids) == Ok(all);
      forall n | n in all
        ensures exists j :: 0 <= j < k && TrimmedFrom(n, sorted[j], offset, d)
      {
        if n !in prev {
          assert TrimmedFrom(n, sorted[k - 1], offset, d);
        }
      }
      forall j | 0 <= j < k && Survives(sorted[j], offset, d)
        ensures exists n :: n in all && TrimmedFrom(n, sorted[j], offset, d)
      {
        if j == k - 1 {
          assert step.value.value in all && TrimmedFrom(step.value.value, t, offset, d);
        } else {
          var n :| n in prev && TrimmedFrom(n, sorted[j], offset, d);
          assert n in all;
        }
      }
    }
  }

  /** MixedCut.truncate with an explicit duration keeps, of each track, exactly
      the part inside [offset, offset + d): every new track is such a part, and
      every track with audio in that span leaves one. */
  lemma MixedTruncatedTracks(m: MixedCut, offset: Seconds, d: Seconds,
                             keepExcessive: bool, preserveId: bool, ids: IdSource)
    requires |m.tracks| > 0
    ensures var r := MixedTruncated(m, offset, Some(d), keepExcessive, preserveId, ids);
      r.Ok? && KeepsTrimmed(r.value.tracks, m.tracks, offset, d)
  {
    var sorted := SortByOffset(m.tracks);
    var oldDuration := Duration(Mixed(m)).value;
    TruncatedTracksFrom(sorted, |sorted|, offset, d, oldDuration, keepExcessive, preserveId, ids);
    var tracks := TruncatedTracks(sorted, |sorted|, offset, Some(d), oldDuration, keepExcessive, preserveId, ids).value;
    assert MixedTruncated(m, offset, Some(d), keepExcessive, preserveId, ids) == Ok(MixedCut(ids(0), tracks));
    forall n | n in tracks
      ensures exists t :: t in m.tracks && TrimmedFrom(n, t, offset, d)
    {
      var j :| 0 <= j < |sorted| && TrimmedFrom(n, sorted[j], offset, d);
      assert sorted[j] in multiset(m.tracks);
    }
    forall t | t in m.tracks && Survives(t, offset, d)
      ensures exists n :: n in tracks && TrimmedFrom(n, t, offset, d)
    {
      assert t in multiset(sorted);
      var j :| 0 <= j < |sorted| && sorted[j] == t;
    }
  }

  /** Without an explicit duration the source lengthens a track that ends
      inside the old mix, and the inner truncation then fails: tracks
      A (offset 0, 8 s) and B (offset 1, 5 s) truncated at offset 3. */
  lemma DefaultDurationCanFail(f: Features, ids: IdSource)
    ensures var a := Cut("a", 0.0, 8.0, f, []);
            var b := Cut("b", 0.0, 5.0, f, []);
            var m := MixedCut("m", [MixTrack(a, 0.0, None), MixTrack(b, 1.0, None)]);
            MixedTruncated(m, 3.0, None, true, false, ids) == Err(ExceedsOriginalEnd)
  {
    var ta := MixTrack(Cut("a", 0.0, 8.0, f, []), 0.0, None);
    var tb := MixTrack(Cut("b", 0.0, 5.0, f, []), 1.0, None);
    var na := MixTrack(Cut(ids(1), 3.0, 5.0, f, []), 0.0, None);
    ExampleMix(f);
    var sorted := [ta, tb];
    assert TruncatedTracks(sorted, 1, 3.0, None, 8.0, true, false, ids) == Ok([na]) by {
      ExampleFirstTrack(f, ids, None);
      assert [] + [na] == [na];
    }
    assert TruncatedTracks(sorted, 2, 3.0, None, 8.0, true, false, ids) == Err(ExceedsOriginalEnd) by {
      ExampleSecondTrackFails(f, ids);
    }
  }

  /** The mix of the examples below lasts 8 s and is already sorted by offset. */
  lemma ExampleMix(f: Features)
    ensures var ta := MixTrack(Cut("a", 0.0, 8.0, f, []), 0.0, None);
            var tb := MixTrack(Cut("b", 0.0, 5.0, f, []), 1.0, None);
            && Duration(Mixed(MixedCut("m", [ta, tb]))) == Ok(8.0)
            && SortByOffset([ta, tb]) == [ta, tb]
  {
    var ta := MixTrack(Cut("a", 0.0, 8.0, f, []), 0.0, None);
    var tb := MixTrack(Cut("b", 0.0, 5.0, f, []), 1.0, None);
    assert [ta, tb][1..] == [tb];
    assert MaxTrackEnd([tb]) == 6.0;
    assert SortByOffset([tb]) == [tb] by {
      assert [tb][1..] == [];
    }
  }

  /** Track A truncated at 3 s keeps its last 5 s, with or without an explicit 5 s duration. */
  lemma ExampleFirstTrack(f: Features, ids: IdSource, d: Option<Seconds>)
    requires d == None || d == Some(5.0)
    ensures TruncateTrack(MixTrack(Cut("a", 0.0, 8.0, f, []), 0.0, None), 3.0, d, 8.0, true, false, ids(1))
         == Ok(Some(MixTrack(Cut(ids(1), 3.0, 5.0, f, []), 0.0, None)))
  {
  }

  /** Track B, ending at 6 s, is stretched past its own end without an explicit duration. */
  lemma ExampleSecondTrackFails(f: Features, ids: IdSource)
    ensures TruncateTrack(MixTrack(Cut("b", 0.0, 5.0, f, []), 1.0, None), 3.0, None, 8.0, true, false, ids(2))
         == Err(ExceedsOriginalEnd)
  {
  }

  /** Track B truncated at 3 s to an explicit 5 s keeps its last 3 s. */
  lemma ExampleSecondTrack(f: Features, ids: IdSource)
    ensures TruncateTrack(MixTrack(Cut("b", 0.0, 5.0, f, []), 1.0, None), 3.0, Some(5.0), 8.0, true, false, ids(2))
         == Ok(Some(MixTrack(Cut(ids(2), 2.0, 3.0, f, []), 0.0, None)))
  {
  }

  /** MixedCut.truncate with the documented default: without an explicit
      duration the mix keeps everything after `offset`, so no track is
      trimmed at its end. */
  function MixedTruncatedIntended(m: MixedCut, offset: Seconds, duration: Option<Seconds>,
                                  keepExcessive: bool, preserveId: bool, ids: IdSource): (r: Result<MixedCut>)
    ensures r.Ok? <==> |m.tracks| > 0
    ensures r.Ok? ==> r.value.id == ids(0)
    ensures r.Ok? && duration.None? ==> forall t :: t in r.value.tracks ==>
      0.0 <= t.offset && 0.0 < t.cut.duration && TrackEnd(t) <= Duration(Mixed(m)).value - offset
  {
    var oldDuration :- Duration(Mixed(m));
    var d := if duration.None? then oldDuration - offset else duration.value;
    MixedTruncatedWithin(m, offset, d, keepExcessive, preserveId, ids);
    MixedTruncated(m, offset, Some(d), keepExcessive, preserveId, ids)
  }

  /** The mix of DefaultDurationCanFail truncated with the documented default:
      both tracks survive whole from the offset on, shifted to start at it. */
  lemma DefaultDurationIntended(f: Features, ids: IdSource)
    ensures var a := Cut("a", 0.0, 8.0, f, []);
            var b := Cut("b", 0.0, 5.0, f, []);
            var m := MixedCut("m", [MixTrack(a, 0.0, None), MixTrack(b, 1.0, None)]);
            var na := MixTrack(Cut(ids(1), 3.0, 5.0, f, []), 0.0, None);
            var nb := MixTrack(Cut(ids(2), 2.0, 3.0, f, []), 0.0, None);
            MixedTruncatedIntended(m, 3.0, None, true, false, ids) == Ok(MixedCut(ids(0), [na, nb]))
  {
    var ta := MixTrack(Cut("a", 0.0, 8.0, f, []), 0.0, None);
    var tb := MixTrack(Cut("b", 0.0, 5.0, f, []), 1.0, None);
    var na := MixTrack(Cut(ids(1), 3.0, 5.0, f, []), 0.0, None);
    var nb := MixTrack(Cut(ids(2), 2.0, 3.0, f, []), 0.0, None);
    ExampleMix(f);
    var sorted := [ta, tb];
    assert TruncatedTracks(sorted, 1, 3.0, Some(5.0), 8.0, true, false, ids) == Ok([na]) by {
      ExampleFirstTrack(f, ids, Some(5.0));
      assert [] + [na] == [na];
    }
    assert TruncatedTracks(sorted, 2, 3.0, Some(5.0), 8.0, true, false, ids) == Ok([na, nb]) by {
      ExampleSecondTrack(f, ids);
      assert [na] + [nb] == [na, nb];
    }
  }

  /** A truncation past every track leaves a mix without tracks, whose
      duration then cannot be taken. */
  lemma TruncationCanEmptyTheMix(f: Features, ids: IdSource)
    ensures var t := MixTrack(Cut("a", 0.0, 5.0, f, []), 0.0, None);
            var r := MixedTruncated(MixedCut("m", [t]), 6.0, Some(1.0), true, true, ids);
            && r == Ok(MixedCut(ids(0), []))
            && Duration(Mixed(r.value)) == Err(EmptyMixDuration)
  {
    var t := MixTrack(Cut("a", 0.0, 5.0, f, []), 0.0, None);
    assert SortByOffset([t]) == [t] by {
      assert [t][1..] == [];
    }
    assert Duration(Mixed(MixedCut("m", [t]))) == Ok(5.0);
    assert TruncateTrack(t, 6.0, Some(1.0), 5.0, true, true, ids(1)) == Ok(None);
    assert TruncatedTracks([t], 1, 6.0, Some(1.0), 5.0, true, true, ids) == Ok([]);
  }
}
