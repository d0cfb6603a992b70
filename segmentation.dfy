/** Building cut sets from feature regions: one cut per region, or a window
    traversal of each region with a fixed window length and shift. */
module Segmentation {
  import opened Base
  import opened Primitives
  import opened Cuts
  import opened CutSets

  /** Each call of uuid4 gives a new id. */
  ghost predicate Injective(ids: IdSource) {
    forall i, j :: 0 <= i < j ==> ids(i) != ids(j)
  }

  // ---------------------------------------------------------------------------
  // make_cuts_from_features

  /** The cut spanning a whole feature region, without supervisions. */
  function WholeCut(f: Features, id: string): Cut {
    Cut(id, f.start, f.duration, f, [])
  }

  function WholeCuts(fs: seq<Features>, ids: IdSource): (r: seq<AnyCut>)
    ensures |r| == |fs| && forall i :: 0 <= i < |fs| ==> r[i] == Simple(WholeCut(fs[i], ids(i)))
  {
    seq(|fs|, i requires 0 <= i < |fs| => Simple(WholeCut(fs[i], ids(i))))
  }

  /** make_cuts_from_features: region i becomes a cut with id ids(i). */
  function CutsFromFeatures(fs: seq<Features>, ids: IdSource): CutSet {
    FromCuts(WholeCuts(fs, ids))
  }

  /** With fresh ids there is one cut per region, in order, each covering
      exactly its region and carrying no supervisions. */
  lemma {:induction false} CutsFromFeaturesCoverRegions(fs: seq<Features>, ids: IdSource)
    requires Injective(ids)
    ensures var s := CutsFromFeatures(fs, ids);
      && Values(s) == WholeCuts(fs, ids)
      && Len(s) == |fs|
      && forall i :: 0 <= i < |fs| ==>
           && Values(s)[i].Simple?
           && Values(s)[i].cut.features == fs[i]
           && Values(s)[i].cut.start == fs[i].start
           && CutEnd(Values(s)[i].cut) == FeaturesEnd(fs[i])
           && Values(s)[i].cut.supervisions == []
  {
    var cs := WholeCuts(fs, ids);
    assert DistinctIds(cs) by {
      forall i, j | 0 <= i < j < |cs|
        ensures Id(cs[i]) != Id(cs[j])
      {
        assert Id(cs[i]) == ids(i) && Id(cs[j]) == ids(j);
      }
    }
    FromCutsDistinct(cs);
  }

  // ---------------------------------------------------------------------------
  // make_windowed_cuts_from_features

  /** The window length, the shift between window starts, and whether a
      trailing shorter window is kept. */
  datatype Windowing = Windowing(cutDuration: Seconds, shift: Seconds, keepShorter: bool)

  /** `cut_shift` defaults to `cut_duration`. */
  function MakeWindowing(cutDuration: Seconds, cutShift: Option<Seconds>, keepShorter: bool): (w: Windowing)
    ensures w.cutDuration == cutDuration && w.keepShorter == keepShorter
    ensures cutShift.None? ==> w.shift == cutDuration
    ensures cutShift.Some? ==> w.shift == cutShift.value
  {
    Windowing(cutDuration, if cutShift.None? then cutDuration else cutShift.value, keepShorter)
  }

  /** `n_cuts` of one region of length `d`: the rounded ratio `d / shift`
      (up when keeping shorter windows, down otherwise), less one when not
      keeping shorter windows and the last window would overrun. A zero shift
      raises ZeroDivisionError. */
  function WindowCount(d: Seconds, w: Windowing): (r: Result<int>)
    ensures r.Err? <==> w.shift == 0.0
    ensures r.Err? ==> r.error == DivisionByZero
  {
    if w.shift == 0.0 then Err(DivisionByZero)
    else
      var n := if w.keepShorter then Ceil(d / w.shift) else Floor(d / w.shift);
      if (n - 1) as real * w.shift + w.cutDuration > d && !w.keepShorter then Ok(n - 1) else Ok(n)
  }

  /** Window `idx` of region `f`: it starts `idx` shifts into the region and
      is cut short at the region's end. */
  function Window(f: Features, idx: nat, w: Windowing, id: string): (r: Cut)
    ensures r.features == f && r.supervisions == []
    ensures r.duration <= w.cutDuration && CutEnd(r) <= FeaturesEnd(f)
  {
    var offset := f.start + idx as real * w.shift;
    Cut(id, offset, Min(w.cutDuration, FeaturesEnd(f) - offset), f, [])
  }

  /** The first `n` windows of `f` (none when `n` is negative); window j gets
      id ids(base + j), its position in the whole output. */
  function WindowsOf(f: Features, n: int, w: Windowing, base: nat, ids: IdSource): (r: seq<AnyCut>)
    ensures |r| == (if n < 0 then 0 else n)
    ensures forall j :: 0 <= j < |r| ==> r[j] == Simple(Window(f, j, w, ids(base + j)))
  {
    seq(if n < 0 then 0 else n, j requires 0 <= j => Simple(Window(f, j, w, ids(base + j))))
  }

  /** The windows of the first `k` regions, in traversal order; the cut at
      position p has id ids(p). */
  function AllWindows(fs: seq<Features>, k: nat, w: Windowing, ids: IdSource): (r: Result<seq<AnyCut>>)
    requires k <= |fs|
    ensures r.Err? <==> k > 0 && w.shift == 0.0
    ensures r.Err? ==> r.error == DivisionByZero
  {
    if k == 0 then Ok([])
    else
      var prev :- AllWindows(fs, k - 1, w, ids);
      var n :- WindowCount(fs[k - 1].duration, w);
      Ok(prev + WindowsOf(fs[k - 1], n, w, |prev|, ids))
  }

  lemma WindowCountUnfold(d: Seconds, w: Windowing, rounded: int, n: int)
    requires w.shift != 0.0
    requires rounded == if w.keepShorter then Ceil(d / w.shift) else Floor(d / w.shift)
    requires n == if (rounded - 1) as real * w.shift + w.cutDuration > d && !w.keepShorter then rounded - 1 else rounded
    ensures WindowCount(d, w) == Ok(n)
  {
  }

  /** One step of the inner loop: the next window goes after the ones so far. */
  lemma {:induction false} AppendWindow(cuts: seq<AnyCut>, prev: seq<AnyCut>, f: Features, n: nat,
                                        w: Windowing, ids: IdSource, offset: Seconds, duration: Seconds)
    requires cuts == prev + WindowsOf(f, n, w, |prev|, ids)
    requires offset == f.start + n as real * w.shift
    requires duration == Min(w.cutDuration, FeaturesEnd(f) - offset)
    ensures cuts + [Simple(Cut(ids(|prev| + n), offset, duration, f, []))]
         == prev + WindowsOf(f, n + 1, w, |prev|, ids)
  {
    var window := Cut(ids(|prev| + n), offset, duration, f, []);
    assert window == Window(f, n, w, ids(|prev| + n));
    assert WindowsOf(f, n + 1, w, |prev|, ids) == WindowsOf(f, n, w, |prev|, ids) + [Simple(window)];
  }

  lemma {:induction false} AllWindowsStep(fs: seq<Features>, k: nat, w: Windowing, ids: IdSource,
                                          prev: seq<AnyCut>, n: int)
    requires k < |fs|
    requires AllWindows(fs, k, w, ids) == Ok(prev)
    requires WindowCount(fs[k].duration, w) == Ok(n)
    ensures AllWindows(fs, k + 1, w, ids) == Ok(prev + WindowsOf(fs[k], n, w, |prev|, ids))
  {
  }

  /** The cut at position p of the traversal is simple and has id ids(p). */
  lemma {:induction false} AllWindowsIds(fs: seq<Features>, k: nat, w: Windowing, ids: IdSource)
    requires k <= |fs| && AllWindows(fs, k, w, ids).Ok?
    ensures var ws := AllWindows(fs, k, w, ids).value;
      forall p :: 0 <= p < |ws| ==> ws[p].Simple? && Id(ws[p]) == ids(p)
  {
    if k > 0 {
      AllWindowsIds(fs, k - 1, w, ids);
      var prev := AllWindows(fs, k - 1, w, ids).value;
      var n := WindowCount(fs[k - 1].duration, w).value;
      var mine := WindowsOf(fs[k - 1], n, w, |prev|, ids);
      assert AllWindows(fs, k, w, ids) == Ok(prev + mine) by {
        AllWindowsStep(fs, k - 1, w, ids, prev, n);
      }
      var all: seq<AnyCut> := prev + mine;
      forall p | 0 <= p < |all|
        ensures all[p].Simple? && Id(all[p]) == ids(p)
      {
        if p >= |prev| {
          assert all[p] == mine[p - |prev|];
        }
      }
    }
  }

  /** make_windowed_cuts_from_features as a value. */
  function WindowedCuts(fs: seq<Features>, w: Windowing, ids: IdSource): (r: Result<CutSet>)
    ensures r.Err? <==> |fs| > 0 && w.shift == 0.0
    ensures r.Err? ==> r.error == DivisionByZero
  {
    var ws :- AllWindows(fs, |fs|, w, ids);
    Ok(FromCuts(ws))
  }

  lemma WindowedCutsZeroShift(fs: seq<Features>, w: Windowing, ids: IdSource)
    requires |fs| > 0 && w.shift == 0.0
    ensures WindowedCuts(fs, w, ids) == Err(DivisionByZero)
  {
  }

  lemma WindowedCutsOfAll(fs: seq<Features>, w: Windowing, ids: IdSource, cuts: seq<AnyCut>)
    requires AllWindows(fs, |fs|, w, ids) == Ok(cuts)
    ensures WindowedCuts(fs, w, ids) == Ok(FromCuts(cuts))
  {
  }

  /** The `n_cuts` computation for one region of length `d`, with a non-zero shift. */
  method CountWindows(d: Seconds, w: Windowing) returns (n: int)
    requires w.shift != 0.0
    ensures WindowCount(d, w) == Ok(n)
  {
    n := if w.keepShorter then Ceil(d / w.shift) else Floor(d / w.shift);
    ghost var rounded := n;
    if (n - 1) as real * w.shift + w.cutDuration > d && !w.keepShorter {
      n := n - 1;
    }
    WindowCountUnfold(d, w, rounded, n);
  }

  /** The inner loop of make_windowed_cuts_from_features: append the `n`
      windows of region `f` to `cuts`, window j drawing id ids(|cuts| + j). */
  method AppendRegionWindows(cuts: seq<AnyCut>, f: Features, n: int, w: Windowing, ids: IdSource)
    returns (out: seq<AnyCut>)
    ensures out == cuts + WindowsOf(f, n, w, |cuts|, ids)
  {
    out := cuts;
    var idx := 0;
    while idx < n
      invariant 0 <= idx <= (if n < 0 then 0 else n)
      invariant out == cuts + WindowsOf(f, idx, w, |cuts|, ids)
    {
      var offset := f.start + idx as real * w.shift;
      var duration := Min(w.cutDuration, FeaturesEnd(f) - offset);
      AppendWindow(out, cuts, f, idx, w, ids, offset, duration);
      out := out + [Simple(Cut(ids(|cuts| + idx), offset, duration, f, []))];
      idx := idx + 1;
    }
    assert n < 0 ==> idx == 0;
  }

  /** The outer loop of make_windowed_cuts_from_features, over the regions. */
  method WindowedCutsFromFeatures(fs: seq<Features>, cutDuration: Seconds, cutShift: Option<Seconds>,
                                  keepShorter: bool, ids: IdSource) returns (r: Result<CutSet>)
    ensures r == WindowedCuts(fs, MakeWindowing(cutDuration, cutShift, keepShorter), ids)
  {
    var shift := if cutShift.None? then cutDuration else cutShift.value;
    var w := Windowing(cutDuration, shift, keepShorter);
    var cuts: seq<AnyCut> := [];
    var i := 0;
    while i < |fs|
      invariant 0 <= i <= |fs|
      invariant AllWindows(fs, i, w, ids) == Ok(cuts)
    {
      if shift == 0.0 {
        WindowedCutsZeroShift(fs, w, ids);
        return Err(DivisionByZero);
      }
      var nCuts := CountWindows(fs[i].duration, w);
      var prev := cuts;
      cuts := AppendRegionWindows(cuts, fs[i], nCuts, w, ids);
      AllWindowsStep(fs, i, w, ids, prev, nCuts);
      i := i + 1;
    }
    WindowedCutsOfAll(fs, w, ids, cuts);
    return Ok(FromCuts(cuts));
  }

  /** With a positive shift, every window of a region starts strictly before
      the region's end. */
  lemma WindowStartsInside(d: Seconds, w: Windowing, j: nat)
    requires 0.0 < w.shift
    requires j < WindowCount(d, w).value
    ensures j as real * w.shift < d
  {
    var q := d / w.shift;
    assert q * w.shift == d;
    if w.keepShorter {
      assert (j as real) < q;
    } else {
      assert (j + 1) as real <= q;
      assert (j + 1) as real * w.shift <= q * w.shift;
    }
  }

  /** With a positive shift and window length, every window lies inside its
      own region and lasts between zero (exclusive) and the window length. */
  lemma {:induction false} WindowInsideRegion(f: Features, w: Windowing, j: nat, id: string)
    requires 0.0 < w.shift && 0.0 < w.cutDuration
    requires j < WindowCount(f.duration, w).value
    ensures var c := Window(f, j, w, id);
      && c.features == f
      && f.start <= c.start
      && CutEnd(c) <= FeaturesEnd(f)
      && 0.0 < c.duration <= w.cutDuration
  {
    WindowStartsInside(f.duration, w, j);
    assert 0.0 <= j as real * w.shift;
  }

  /** A windowed cut: simple, cut from one of `regions`, inside that region,
      with positive duration at most the window length. */
  ghost predicate InsideSomeRegion(c: AnyCut, regions: seq<Features>, w: Windowing) {
    && c.Simple?
    && c.cut.features in regions
    && c.cut.features.start <= c.cut.start
    && CutEnd(c.cut) <= FeaturesEnd(c.cut.features)
    && 0.0 < c.cut.duration <= w.cutDuration
  }

  /** All `n` windows of one region lie inside it. */
  lemma WindowsOfInside(f: Features, n: int, w: Windowing, base: nat, ids: IdSource)
    requires 0.0 < w.shift && 0.0 < w.cutDuration
    requires WindowCount(f.duration, w) == Ok(n)
    ensures forall j :: 0 <= j < |WindowsOf(f, n, w, base, ids)| ==>
              InsideSomeRegion(WindowsOf(f, n, w, base, ids)[j], [f], w)
  {
    var mine := WindowsOf(f, n, w, base, ids);
    forall j | 0 <= j < |mine|
      ensures InsideSomeRegion(mine[j], [f], w)
    {
      WindowInsideRegion(f, w, j, ids(base + j));
    }
  }

  lemma ConcatInside(prev: seq<AnyCut>, mine: seq<AnyCut>, regions: seq<Features>, f: Features, w: Windowing)
    requires forall p :: 0 <= p < |prev| ==> InsideSomeRegion(prev[p], regions, w)
    requires forall j :: 0 <= j < |mine| ==> InsideSomeRegion(mine[j], [f], w)
    ensures forall p :: 0 <= p < |prev + mine| ==> InsideSomeRegion((prev + mine)[p], regions + [f], w)
  {
    forall p | 0 <= p < |prev + mine|
      ensures InsideSomeRegion((prev + mine)[p], regions + [f], w)
    {
      if p < |prev| {
        assert (prev + mine)[p] == prev[p];
      } else {
        assert (prev + mine)[p] == mine[p - |prev|];
      }
    }
  }

  /** The traversal of the first `k` regions succeeds and each of its cuts
      lies inside one of those regions. */
  ghost predicate WindowsInside(fs: seq<Features>, k: nat, w: Windowing, ids: IdSource)
    requires k <= |fs|
  {
    var r := AllWindows(fs, k, w, ids);
    && r.Ok?
    && forall p :: 0 <= p < |r.value| ==> InsideSomeRegion(r.value[p], fs[..k], w)
  }

  /** Every cut of the windowed traversal lies inside the region it was cut
      from, with positive duration at most the window length. */
  lemma {:induction false} AllWindowsInsideRegions(fs: seq<Features>, k: nat, w: Windowing, ids: IdSource)
    requires k <= |fs| && 0.0 < w.shift && 0.0 < w.cutDuration
    ensures WindowsInside(fs, k, w, ids)
  {
    if k > 0 {
      AllWindowsInsideRegions(fs, k - 1, w, ids);
      WindowsInsideStep(fs, k - 1, w, ids);
    }
  }

  /** The windows of region i lie inside it, after those of the earlier regions. */
  lemma WindowsInsideStep(fs: seq<Features>, i: nat, w: Windowing, ids: IdSource)
    requires i < |fs| && 0.0 < w.shift && 0.0 < w.cutDuration
    requires WindowsInside(fs, i, w, ids)
    ensures WindowsInside(fs, i + 1, w, ids)
  {
    var prev := AllWindows(fs, i, w, ids).value;
    var f := fs[i];
    var n := WindowCount(f.duration, w).value;
    var all := prev + WindowsOf(f, n, w, |prev|, ids);
    assert AllWindows(fs, i + 1, w, ids) == Ok(all) by {
      AllWindowsStep(fs, i, w, ids, prev, n);
    }
    assert forall p :: 0 <= p < |all| ==> InsideSomeRegion(all[p], fs[..i + 1], w) by {
      WindowsOfInside(f, n, w, |prev|, ids);
      ConcatInside(prev, WindowsOf(f, n, w, |prev|, ids), fs[..i], f, w);
      assert fs[..i + 1] == fs[..i] + [f];
    }
  }

  /** With fresh ids, the windowed cut set holds every window, in traversal order. */
  lemma {:induction false} WindowedCutsKeepsAllWindows(fs: seq<Features>, w: Windowing, ids: IdSource)
    requires Injective(ids) && w.shift != 0.0
    ensures var ws := AllWindows(fs, |fs|, w, ids).value;
      && WindowedCuts(fs, w, ids) == Ok(FromCuts(ws))
      && Values(FromCuts(ws)) == ws
      && Len(FromCuts(ws)) == |ws|
  {
    var ws := AllWindows(fs, |fs|, w, ids).value;
    AllWindowsIds(fs, |fs|, w, ids);
    assert DistinctIds(ws) by {
      forall i, j | 0 <= i < j < |ws|
        ensures Id(ws[i]) != Id(ws[j])
      {
        assert Id(ws[i]) == ids(i) && Id(ws[j]) == ids(j);
      }
    }
    FromCutsDistinct(ws);
  }

  /** Keeping shorter windows: ceil(d / shift) windows, each of positive
      duration when the window length is positive. */
  lemma KeepShorterWindows(f: Features, w: Windowing, base: nat, ids: IdSource)
    requires w.keepShorter && 0.0 < w.shift && 0.0 < w.cutDuration
    ensures WindowCount(f.duration, w) == Ok(Ceil(f.duration / w.shift))
    ensures var ws := WindowsOf(f, Ceil(f.duration / w.shift), w, base, ids);
      forall j :: 0 <= j < |ws| ==> 0.0 < ws[j].cut.duration
  {
    var ws := WindowsOf(f, Ceil(f.duration / w.shift), w, base, ids);
    forall j | 0 <= j < |ws|
      ensures 0.0 < ws[j].cut.duration
    {
      WindowInsideRegion(f, w, j, ids(base + j));
    }
  }

  /** Not keeping shorter windows with shift equal to the window length:
      floor(d / shift) windows, each of full length. */
  lemma FullWindowsWhenShiftIsLength(f: Features, w: Windowing, base: nat, ids: IdSource)
    requires !w.keepShorter && 0.0 < w.shift && w.shift == w.cutDuration
    ensures WindowCount(f.duration, w) == Ok(Floor(f.duration / w.shift))
    ensures var ws := WindowsOf(f, Floor(f.duration / w.shift), w, base, ids);
      forall j :: 0 <= j < |ws| ==> ws[j].cut.duration == w.cutDuration
  {
    var n := Floor(f.duration / w.shift);
    var q := f.duration / w.shift;
    assert q * w.shift == f.duration;
    assert n as real * w.shift <= f.duration by {
      assert n as real <= q;
    }
    var ws := WindowsOf(f, n, w, base, ids);
    forall j | 0 <= j < |ws|
      ensures ws[j].cut.duration == w.cutDuration
    {
      assert (j + 1) as real <= n as real;
      assert (j + 1) as real * w.shift <= n as real * w.shift;
    }
  }

  /** Not keeping shorter windows, overlapping windows can still come out
      short, and spaced-out windows can lose a full window: a 10 s region cut
      into 5 s windows every 1 s gives 9 windows, the last lasting 2 s; cut
      into 1 s windows every 4 s it gives 2 windows although one at 8 s fits. */
  lemma NotKeepingShorterWindowsAsWritten(f: Features, base: nat, ids: IdSource)
    requires f.start == 0.0 && f.duration == 10.0
    ensures var w := Windowing(5.0, 1.0, false);
      && WindowCount(f.duration, w) == Ok(9)
      && Window(f, 8, w, ids(base + 8)).duration == 2.0
    ensures var w := Windowing(1.0, 4.0, false);
      && WindowCount(f.duration, w) == Ok(2)
      && 2.0 * w.shift + w.cutDuration <= f.duration
  {
    assert Floor(10.0 / 1.0) == 10;
    assert Floor(10.0 / 4.0) == 2;
  }

  /** The number of full-length windows that fit in a region of length `d`:
      the windows the traversal is documented to produce when shorter ones
      are not kept. */
  function FullWindowCount(d: Seconds, w: Windowing): (r: nat)
    requires 0.0 < w.shift
  {
    if d < w.cutDuration then 0 else Floor((d - w.cutDuration) / w.shift) + 1
  }

  /** Exactly the first FullWindowCount windows are full: each of them ends
      within the region, and the next one would not. */
  lemma FullWindowCountIsExact(d: Seconds, w: Windowing, j: nat)
    requires 0.0 < w.shift
    ensures j < FullWindowCount(d, w) <==> j as real * w.shift + w.cutDuration <= d
  {
    if w.cutDuration <= d {
      var q := (d - w.cutDuration) / w.shift;
      var n := Floor(q);
      assert q * w.shift == d - w.cutDuration;
      if j <= n {
        assert j as real * w.shift <= n as real * w.shift;
        assert n as real * w.shift <= q * w.shift;
      } else {
        assert q < j as real;
        assert q * w.shift < j as real * w.shift;
      }
    } else {
      assert 0.0 <= j as real * w.shift;
    }
  }

  /** Every one of the first FullWindowCount windows lasts the full window
      length and lies inside its region. */
  lemma FullWindowsAreFull(f: Features, w: Windowing, j: nat, id: string)
    requires 0.0 < w.shift && j < FullWindowCount(f.duration, w)
    ensures var c := Window(f, j, w, id);
      && c.duration == w.cutDuration
      && f.start <= c.start
      && CutEnd(c) <= FeaturesEnd(f)
  {
    FullWindowCountIsExact(f.duration, w, j);
    assert 0.0 <= j as real * w.shift;
  }

  /** Where the traversal's windows are all full, the documented count agrees
      with the count the source computes: with shift equal to the window length. */
  lemma FullWindowCountAgrees(d: Seconds, w: Windowing)
    requires !w.keepShorter && 0.0 < w.shift && w.shift == w.cutDuration && 0.0 <= d
    ensures WindowCount(d, w) == Ok(FullWindowCount(d, w))
  {
    var s := w.shift;
    var q := d / s;
    var n := Floor(q);
    assert q * s == d;
    assert n as real * s <= d by {
      MulMonotone(n as real, q, s);
    }
    assert WindowCount(d, w) == Ok(n);
    if d < w.cutDuration {
      if 1.0 <= q {
        MulMonotone(1.0, q, s);
      }
      if q < 0.0 {
        MulMonotone(q, 0.0, s);
      }
      assert 0.0 <= q < 1.0;
    } else {
      var q2 := (d - w.cutDuration) / s;
      assert q2 * s == d - s;
      assert (q - 1.0) * s == d - s;
      MulCancel(q2, q - 1.0, s);
      FloorShift(q);
    }
  }

  lemma FloorShift(q: real)
    ensures Floor(q - 1.0) == Floor(q) - 1
  {
    var m, n := Floor(q - 1.0), Floor(q);
    assert (m + 1) as real <= q < (m + 2) as real;
    assert n as real <= q < (n + 1) as real;
  }
}
