/** The functional composition helpers: `mix_cuts` and `append_cuts` fold a
    sequence of cuts with `functools.reduce`, overlaying (at offset 0, no SNR)
    or appending each cut onto the mix built so far. */
module Composition {
  import opened Base
  import opened Cuts

  /** The two-cut step a fold applies: the `mix` or the `append` helper. */
  datatype Step = MixStep | AppendStep

  function ApplyStep(step: Step, left: AnyCut, right: AnyCut, freshId: string): (r: Result<MixedCut>)
    ensures r.Ok? ==> |r.value.tracks| == TrackCount(left) + TrackCount(right)
  {
    match step
    case MixStep => Overlay(left, right, 0.0, None, freshId)
    case AppendStep => Append(left, right, None, freshId)
  }

  /** functools.reduce without an initial value: the first cut is the start
      value, step k (counting from 0) mints id ids(k). */
  function Reduce(step: Step, cuts: seq<AnyCut>, ids: IdSource): (r: Result<AnyCut>)
    ensures |cuts| == 0 ==> r == Err(EmptyReduce)
    ensures |cuts| == 1 ==> r == Ok(cuts[0])
    ensures |cuts| >= 2 && r.Ok? ==> r.value.Mixed? && r.value.mix.id == ids(|cuts| - 2)
    decreases |cuts|
  {
    if |cuts| == 0 then Err(EmptyReduce)
    else if |cuts| == 1 then Ok(cuts[0])
    else
      var acc :- Reduce(step, cuts[..|cuts| - 1], ids);
      var m :- ApplyStep(step, acc, cuts[|cuts| - 1], ids(|cuts| - 2));
      Ok(Mixed(m))
  }

  /** mix_cuts: all cuts overlaid at offset 0 with native level.
      No cuts fail, one cut is returned as is, and more give one flat mix
      holding every input's tracks. */
  function MixCuts(cuts: seq<AnyCut>, ids: IdSource): (r: Result<AnyCut>)
    ensures |cuts| == 0 ==> r == Err(EmptyReduce)
    ensures |cuts| == 1 ==> r == Ok(cuts[0])
    ensures |cuts| >= 2 && r.Ok? ==> r.value.Mixed? && |r.value.mix.tracks| == TotalTracks(cuts)
  {
    var r := Reduce(MixStep, cuts, ids);
    if |cuts| >= 2 && r.Ok? then
      ReduceTrackCount(MixStep, cuts, ids);
      r
    else r
  }

  /** append_cuts: all cuts placed back to back.
      No cuts fail, one cut is returned as is, and more give one flat mix
      holding every input's tracks. */
  function AppendCuts(cuts: seq<AnyCut>, ids: IdSource): (r: Result<AnyCut>)
    ensures |cuts| == 0 ==> r == Err(EmptyReduce)
    ensures |cuts| == 1 ==> r == Ok(cuts[0])
    ensures |cuts| >= 2 && r.Ok? ==> r.value.Mixed? && |r.value.mix.tracks| == TotalTracks(cuts)
  {
    var r := Reduce(AppendStep, cuts, ids);
    if |cuts| >= 2 && r.Ok? then
      ReduceTrackCount(AppendStep, cuts, ids);
      r
    else r
  }

  /** Total number of tracks the cuts contribute (1 per simple cut). */
  function TotalTracks(cuts: seq<AnyCut>): nat {
    if cuts == [] then 0 else TotalTracks(cuts[..|cuts| - 1]) + TrackCount(cuts[|cuts| - 1])
  }

  /** Folding never nests: a successful fold of two or more cuts is one flat
      mix holding every input's tracks. */
  lemma {:induction false} ReduceTrackCount(step: Step, cuts: seq<AnyCut>, ids: IdSource)
    requires |cuts| >= 2
    requires Reduce(step, cuts, ids).Ok?
    ensures |Reduce(step, cuts, ids).value.mix.tracks| == TotalTracks(cuts)
  {
    var prefix := cuts[..|cuts| - 1];
    if |prefix| == 1 {
      assert TotalTracks(prefix) == TotalTracks([]) + TrackCount(prefix[0]);
    } else {
      ReduceTrackCount(step, prefix, ids);
    }
  }

  function Simples(cs: seq<Cut>): (r: seq<AnyCut>)
    ensures |r| == |cs| && forall i :: 0 <= i < |cs| ==> r[i] == Simple(cs[i])
  {
    seq(|cs|, i requires 0 <= i < |cs| => Simple(cs[i]))
  }

  /** Simple cuts that can be mixed: equal feature dimension, non-negative durations. */
  predicate Compatible(cs: seq<Cut>) {
    forall i :: 0 <= i < |cs| ==>
      0.0 <= cs[i].duration && cs[i].features.numFeatures == cs[0].features.numFeatures
  }

  /** mix_cuts over n >= 2 compatible simple cuts yields n tracks, all at offset 0 without SNR. */
  lemma {:induction false} MixCutsOfSimpleCuts(cs: seq<Cut>, ids: IdSource)
    requires |cs| >= 2 && Compatible(cs)
    ensures var r := MixCuts(Simples(cs), ids);
      && r.Ok? && r.value.Mixed?
      && |r.value.mix.tracks| == |cs|
      && forall i :: 0 <= i < |cs| ==> r.value.mix.tracks[i] == MixTrack(cs[i], 0.0, None)
  {
    var n := |cs|;
    var all := Simples(cs);
    var prefix := cs[..n - 1];
    assert all[..n - 1] == Simples(prefix);
    var acc: AnyCut;
    if n == 2 {
      assert Simples(prefix) == [Simple(cs[0])];
      acc := Simple(cs[0]);
    } else {
      MixCutsOfSimpleCuts(prefix, ids);
      acc := MixCuts(Simples(prefix), ids).value;
      assert acc.mix.tracks[0] == MixTrack(cs[0], 0.0, None);
      assert TrackEnd(acc.mix.tracks[0]) <= Duration(acc).value;
    }
    assert Reduce(MixStep, all[..n - 1], ids) == Ok(acc);
    assert NumFeatures(acc) == NumFeatures(all[n - 1]);
    var o := Overlay(acc, all[n - 1], 0.0, None, ids(n - 2));
    assert o.Ok?;
    assert Reduce(MixStep, all, ids) == Ok(Mixed(o.value));
    assert o.value.tracks == SelfTracks(acc) + [MixTrack(cs[n - 1], 0.0, None)];
  }

  /** Sum of the durations of the first `k` cuts. */
  function SumDurations(cs: seq<Cut>, k: nat): Seconds
    requires k <= |cs|
  {
    if k == 0 then 0.0 else SumDurations(cs, k - 1) + cs[k - 1].duration
  }

  /** Extending the sequence does not change the sums of its prefixes. */
  lemma {:induction false} SumDurationsExtend(cs: seq<Cut>, more: seq<Cut>, k: nat)
    requires k <= |cs|
    ensures SumDurations(cs + more, k) == SumDurations(cs, k)
  {
    if k > 0 {
      SumDurationsExtend(cs, more, k - 1);
      assert (cs + more)[k - 1] == cs[k - 1];
    }
  }

  /** The tracks of a back-to-back placement of `cs`: each cut starts where
      the previous ones end. */
  function PlacedBackToBack(cs: seq<Cut>): (r: seq<MixTrack>)
    ensures |r| == |cs|
  {
    if cs == [] then []
    else PlacedBackToBack(cs[..|cs| - 1]) + [MixTrack(cs[|cs| - 1], SumDurations(cs, |cs| - 1), None)]
  }

  /** Appending a cut to the sequence adds its duration to the total. */
  lemma {:induction false} SumDurationsSnoc(cs: seq<Cut>, c: Cut)
    ensures SumDurations(cs + [c], |cs| + 1) == SumDurations(cs, |cs|) + c.duration
  {
    SumDurationsExtend(cs, [c], |cs|);
    assert (cs + [c])[|cs|] == c;
  }

  /** Placing one more cut back to back puts it at the total of the others. */
  lemma {:induction false} PlacedBackToBackSnoc(cs: seq<Cut>, c: Cut)
    ensures PlacedBackToBack(cs + [c])
         == PlacedBackToBack(cs) + [MixTrack(c, SumDurations(cs, |cs|), None)]
  {
    assert (cs + [c])[..|cs|] == cs;
    SumDurationsExtend(cs, [c], |cs|);
  }

  /** In a back-to-back placement the i-th cut starts at the sum of the
      durations of the cuts before it. */
  lemma {:induction false} PlacedBackToBackOffsets(cs: seq<Cut>, i: nat)
    requires i < |cs|
    ensures PlacedBackToBack(cs)[i] == MixTrack(cs[i], SumDurations(cs, i), None)
  {
    if i < |cs| - 1 {
      var init := cs[..|cs| - 1];
      PlacedBackToBackOffsets(init, i);
      assert init + [cs[|cs| - 1]] == cs;
      SumDurationsExtend(init, [cs[|cs| - 1]], i);
    }
  }

  /** One append step onto a back-to-back mix keeps the placement and adds the
      appended cut's duration. */
  lemma {:induction false} AppendStepPlacement(m: MixedCut, prefix: seq<Cut>, c: Cut, freshId: string)
    requires |prefix| >= 1 && 0.0 <= c.duration
    requires c.features.numFeatures == prefix[0].features.numFeatures
    requires m.tracks == PlacedBackToBack(prefix)
    requires Duration(Mixed(m)) == Ok(SumDurations(prefix, |prefix|))
    ensures var o := Append(Mixed(m), Simple(c), None, freshId);
      && o.Ok?
      && o.value.tracks == PlacedBackToBack(prefix + [c])
      && Duration(Mixed(o.value)) == Ok(SumDurations(prefix + [c], |prefix| + 1))
  {
    var all := prefix + [c];
    var o := Append(Mixed(m), Simple(c), None, freshId);
    PlacedBackToBackOffsets(prefix, 0);
    assert NumFeatures(Mixed(m)) == NumFeatures(Simple(c));
    assert o.Ok?;
    AppendPlacement(Mixed(m), c, None, freshId);
    var d := Duration(Mixed(o.value));
    assert d == Ok(SumDurations(prefix, |prefix|) + c.duration);
    SumDurationsSnoc(prefix, c);
    assert d == Ok(SumDurations(all, |prefix| + 1));
    PlacedBackToBackSnoc(prefix, c);
  }

  /** append_cuts over n >= 2 compatible simple cuts places the i-th cut at the
      sum of its predecessors' durations; the mix lasts the sum of all durations. */
  lemma {:induction false} AppendCutsOfSimpleCuts(cs: seq<Cut>, ids: IdSource)
    requires |cs| >= 2 && Compatible(cs)
    ensures var r := AppendCuts(Simples(cs), ids);
      && r.Ok? && r.value.Mixed?
      && r.value.mix.tracks == PlacedBackToBack(cs)
      && Duration(r.value) == Ok(SumDurations(cs, |cs|))
  {
    var n := |cs|;
    var all := Simples(cs);
    var prefix := cs[..n - 1];
    assert all[..n - 1] == Simples(prefix);
    assert prefix + [cs[n - 1]] == cs;
    if n == 2 {
      var first := Simple(cs[0]);
      assert Simples(prefix) == [first];
      assert Reduce(AppendStep, all[..1], ids) == Ok(first);
      var o := Append(first, Simple(cs[1]), None, ids(0));
      assert o.Ok?;
      assert Reduce(AppendStep, all, ids) == Ok(Mixed(o.value));
      AppendPlacement(first, cs[1], None, ids(0));
      assert SumDurations(cs, 2) == cs[0].duration + cs[1].duration by {
        assert SumDurations(cs, 1) == cs[0].duration;
      }
      assert o.value.tracks == PlacedBackToBack(cs) by {
        assert [cs[0]] + [cs[1]] == cs;
        PlacedBackToBackSnoc([cs[0]], cs[1]);
        assert PlacedBackToBack([cs[0]]) == [MixTrack(cs[0], 0.0, None)];
        SumDurationsSnoc([], cs[0]);
        assert [] + [cs[0]] == [cs[0]];
      }
    } else {
      AppendCutsOfSimpleCuts(prefix, ids);
      var acc := AppendCuts(Simples(prefix), ids).value;
      assert Reduce(AppendStep, all[..n - 1], ids) == Ok(acc);
      assert cs[0] == prefix[0];
      AppendStepPlacement(acc.mix, prefix, cs[n - 1], ids(n - 2));
      var o := Append(acc, all[n - 1], None, ids(n - 2));
      assert Reduce(AppendStep, all, ids) == Ok(Mixed(o.value));
    }
  }
}
