/** Manifest manipulation for cut sets: splitting into chunks, combining with
    `+`, and building a manifest from loose cuts. */
module Manipulation {
  import opened Base
  import opened Cuts
  import opened CutSets

  type Item = (string, AnyCut)

  /** Python's `xs[b:e]` for non-negative bounds: both clamp to the length. */
  function Slice(xs: seq<Item>, b: int, e: int): (r: seq<Item>)
    requires 0 <= b && 0 <= e
    ensures b < e <= |xs| ==> r == xs[b..e]
    ensures |xs| <= b || e <= b ==> r == []
    ensures e <= |xs| && b <= e ==> |r| == e - b
    ensures b <= e ==> |r| <= e - b
  {
    var lo := MinInt(b, |xs|);
    var hi := MinInt(e, |xs|);
    if lo < hi then xs[lo..hi] else []
  }

  /** `int(ceil(num_items / num_splits))`. */
  function Chunk(n: nat, k: int): int
    requires k != 0
  {
    Ceil(n as real / k as real)
  }

  /** The items split takes the parts from: the set's own items, or the
      order random.shuffle left them in. */
  function SplitContents(s: CutSet, randomize: bool, shuffled: seq<Item>): seq<Item>
    requires WellFormed(s)
  {
    if randomize then shuffled else Items(s)
  }

  /** One part: `dict(contents[lo:hi])`. */
  function Part(contents: seq<Item>, lo: nat, hi: nat): CutSet {
    FromPairs(Slice(contents, lo, hi))
  }

  /** Where part i begins: i * chunk, counted up one chunk at a time
      (StartIsProduct states the product). */
  function Start(i: nat, chunk: nat): nat {
    if i == 0 then 0 else Start(i - 1, chunk) + chunk
  }

  /** Part i holds the items in [i * chunk, min(n, (i + 1) * chunk)). */
  function PartAt(contents: seq<Item>, i: nat, chunk: nat, n: nat): CutSet {
    Part(contents, Start(i, chunk), MinInt(n, Start(i + 1, chunk)))
  }

  /** The k parts split returns. */
  function Parts(contents: seq<Item>, k: nat, chunk: nat, n: nat): (r: seq<CutSet>)
    ensures |r| == k && AllWellFormed(r)
    ensures forall i :: 0 <= i < k ==> r[i] == PartAt(contents, i, chunk, n)
  {
    seq(k, i requires 0 <= i < k => PartAt(contents, i, chunk, n))
  }

  /** split(cut_set, num_splits, randomize); random.shuffle's output is the
      permutation `shuffled` of the set's items. */
  function Split(s: CutSet, numSplits: int, randomize: bool, shuffled: seq<Item>): (r: Result<seq<CutSet>>)
    requires WellFormed(s)
    requires randomize ==> multiset(shuffled) == multiset(Items(s))
    ensures numSplits > Len(s) <==> r == Err(TooManySplits)
    ensures numSplits == 0 ==> r == Err(DivisionByZero)
    ensures numSplits < 0 ==> r == Ok([])
    ensures 1 <= numSplits <= Len(s) ==> r.Ok? && |r.value| == numSplits
  {
    var n := Len(s);
    if numSplits > n then Err(TooManySplits)
    else if numSplits == 0 then Err(DivisionByZero)
    else if numSplits < 0 then Ok([])
    else
      var chunk := Chunk(n, numSplits);
      assert 0 <= chunk;
      Ok(Parts(SplitContents(s, randomize, shuffled), numSplits, chunk, n))
  }

  // ---------------------------------------------------------------------------
  // What split's parts hold

  /** The keys of a well-formed dictionary's items are distinct. */
  lemma {:induction false} ItemsDistinctKeys(s: CutSet)
    requires WellFormed(s)
    ensures DistinctKeys(Items(s))
  {
  }

  lemma {:induction false} CountAtMostOne(b: seq<Item>, x: Item)
    requires DistinctKeys(b)
    ensures multiset(b)[x] <= 1
  {
    if b != [] {
      var init := b[..|b| - 1];
      assert b == init + [b[|b| - 1]];
      assert DistinctKeys(init);
      CountAtMostOne(init, x);
      if b[|b| - 1] == x {
        assert x !in init;
      }
    }
  }

  lemma {:induction false} CountAtLeastTwo(a: seq<Item>, i: nat, j: nat)
    requires i < j < |a| && a[i] == a[j]
    ensures multiset(a)[a[i]] >= 2
  {
    assert a == a[..j] + [a[j]] + a[j + 1..];
    assert a[i] in a[..j];
  }

  /** A permutation of items with distinct keys has distinct keys. */
  lemma {:induction false} PermutationDistinctKeys(a: seq<Item>, b: seq<Item>)
    requires multiset(a) == multiset(b) && DistinctKeys(b)
    ensures DistinctKeys(a)
  {
    forall i, j | 0 <= i < j < |a|
      ensures a[i].0 != a[j].0
    {
      assert a[i] in multiset(b) && a[j] in multiset(b);
      var p :| 0 <= p < |b| && b[p] == a[i];
      var q :| 0 <= q < |b| && b[q] == a[j];
      if a[i].0 == a[j].0 {
        assert p == q;
        CountAtLeastTwo(a, i, j);
        CountAtMostOne(b, a[i]);
        assert false;
      }
    }
  }

  /** The contents split draws from have distinct keys and the set's length. */
  lemma {:induction false} SplitContentsDistinct(s: CutSet, randomize: bool, shuffled: seq<Item>)
    requires WellFormed(s)
    requires randomize ==> multiset(shuffled) == multiset(Items(s))
    ensures DistinctKeys(SplitContents(s, randomize, shuffled))
    ensures |SplitContents(s, randomize, shuffled)| == Len(s)
    ensures multiset(SplitContents(s, randomize, shuffled)) == multiset(Items(s))
  {
    ItemsDistinctKeys(s);
    LenIsOrderLength(s);
    if randomize {
      PermutationDistinctKeys(shuffled, Items(s));
      assert |shuffled| == |multiset(shuffled)|;
    }
  }

  /** Each chunk is at least one item when 1 <= k <= n, and k chunks cover n items. */
  lemma ChunkCovers(n: nat, k: int)
    requires 1 <= k <= n
    ensures 1 <= Chunk(n, k)
    ensures n <= k * Chunk(n, k)
  {
    var q := n as real / k as real;
    var c := Chunk(n, k);
    assert q * k as real == n as real;
    if q < 1.0 {
      MulMonotone(q, 1.0, k as real);
    }
    MulMonotone(q, c as real, k as real);
    assert (k * c) as real == c as real * k as real;
  }

  predicate AllWellFormed(sets: seq<CutSet>) {
    forall i :: 0 <= i < |sets| ==> WellFormed(sets[i])
  }

  /** The items of all parts before `j`, in order. */
  function AllItems(parts: seq<CutSet>, j: nat): seq<Item>
    requires j <= |parts| && AllWellFormed(parts)
  {
    if j == 0 then [] else AllItems(parts, j - 1) + Items(parts[j - 1])
  }

  /** A part lists its slice of the contents in order. */
  lemma {:induction false} PartItems(contents: seq<Item>, lo: nat, hi: nat)
    requires DistinctKeys(contents)
    ensures Items(Part(contents, lo, hi)) == Slice(contents, lo, hi)
  {
    var sl := Slice(contents, lo, hi);
    if sl != [] {
      var start := MinInt(lo, |contents|);
      assert sl == contents[start..MinInt(hi, |contents|)];
      assert DistinctKeys(sl) by {
        forall p, q | 0 <= p < q < |sl|
          ensures sl[p].0 != sl[q].0
        {
          assert sl[p] == contents[start + p] && sl[q] == contents[start + q];
        }
      }
    }
    FromPairsItems(sl);
  }

  /** Part i of `parts` lists items [Start(i), min(n, Start(i + 1))) of `contents`. */
  ghost predicate PartsAreSlices(contents: seq<Item>, chunk: nat, n: nat, parts: seq<CutSet>)
    requires AllWellFormed(parts)
  {
    forall i :: 0 <= i < |parts| ==>
      Items(parts[i]) == Slice(contents, Start(i, chunk), MinInt(n, Start(i + 1, chunk)))
  }

  /** The parts split builds are the slices of the contents. */
  lemma PartsSlices(contents: seq<Item>, k: nat, chunk: nat, n: nat)
    requires DistinctKeys(contents)
    ensures PartsAreSlices(contents, chunk, n, Parts(contents, k, chunk, n))
  {
    var parts := Parts(contents, k, chunk, n);
    forall i | 0 <= i < k
      ensures Items(parts[i]) == Slice(contents, Start(i, chunk), MinInt(n, Start(i + 1, chunk)))
    {
      PartAtItems(contents, i, chunk, n);
    }
  }

  /** The parts before `j` hold, in order, the first min(n, j * chunk) items. */
  ghost predicate PrefixHeld(contents: seq<Item>, chunk: nat, n: nat, parts: seq<CutSet>, j: nat)
    requires |contents| == n && j <= |parts| && AllWellFormed(parts)
  {
    AllItems(parts, j) == contents[..MinInt(n, Start(j, chunk))]
  }

  lemma {:induction false} AllItemsPrefix(contents: seq<Item>, chunk: nat, n: nat, parts: seq<CutSet>, j: nat)
    requires |contents| == n && j <= |parts| && AllWellFormed(parts)
    requires PartsAreSlices(contents, chunk, n, parts)
    ensures PrefixHeld(contents, chunk, n, parts, j)
  {
    if j > 0 {
      AllItemsPrefix(contents, chunk, n, parts, j - 1);
      AllItemsPrefixStep(contents, chunk, n, parts, j - 1);
    }
  }

  /** Part i extends the prefix held by the parts before it. */
  lemma AllItemsPrefixStep(contents: seq<Item>, chunk: nat, n: nat, parts: seq<CutSet>, i: nat)
    requires |contents| == n && i < |parts| && AllWellFormed(parts)
    requires PartsAreSlices(contents, chunk, n, parts)
    requires PrefixHeld(contents, chunk, n, parts, i)
    ensures PrefixHeld(contents, chunk, n, parts, i + 1)
  {
    var lo := Start(i, chunk);
    var hi := MinInt(n, Start(i + 1, chunk));
    var prefix := contents[..MinInt(n, lo)];
    var part := Slice(contents, lo, hi);
    assert Items(parts[i]) == part;
    assert prefix + part == contents[..hi] by {
      PrefixThenSlice(contents, lo, chunk);
    }
    AllItemsStep(parts, i, prefix, part);
  }

  /** Part i lists its slice of the contents in order. */
  lemma PartAtItems(contents: seq<Item>, i: nat, chunk: nat, n: nat)
    requires DistinctKeys(contents)
    ensures Items(PartAt(contents, i, chunk, n)) == Slice(contents, Start(i, chunk), MinInt(n, Start(i + 1, chunk)))
  {
    PartItems(contents, Start(i, chunk), MinInt(n, Start(i + 1, chunk)));
  }

  /** One more part appends its items. */
  lemma AllItemsStep(parts: seq<CutSet>, i: nat, prefix: seq<Item>, part: seq<Item>)
    requires i < |parts| && AllWellFormed(parts)
    requires AllItems(parts, i) == prefix && Items(parts[i]) == part
    ensures AllItems(parts, i + 1) == prefix + part
  {
  }

  /** The first min(n, lo) items followed by the clamped slice [lo, lo + c)
      are the first min(n, lo + c) items. */
  lemma PrefixThenSlice(xs: seq<Item>, lo: nat, c: nat)
    ensures xs[..MinInt(|xs|, lo)] + Slice(xs, lo, MinInt(|xs|, lo + c)) == xs[..MinInt(|xs|, lo + c)]
  {
    var hi := MinInt(|xs|, lo + c);
    if lo < hi {
      assert xs[..hi] == xs[..lo] + xs[lo..hi];
    }
  }

  /** The begin index of part i is i * chunk. */
  lemma {:induction false} StartIsProduct(i: nat, chunk: nat)
    ensures Start(i, chunk) == i * chunk
  {
    if i > 0 {
      StartIsProduct(i - 1, chunk);
      assert i * chunk == (i - 1) * chunk + chunk;
    }
  }

  /** Later parts begin no earlier. */
  lemma {:induction false} StartMonotone(i: nat, j: nat, chunk: nat)
    requires i <= j
    ensures Start(i, chunk) <= Start(j, chunk)
  {
    if i < j {
      StartMonotone(i, j - 1, chunk);
    }
  }

  predicate PairwiseDisjoint(sets: seq<CutSet>, k: nat)
    requires k <= |sets|
  {
    forall i, j :: 0 <= i < j < k ==> sets[i].cuts.Keys !! sets[j].cuts.Keys
  }

  /** The keys of a part are the keys of its slice. */
  lemma {:induction false} PartKeys(contents: seq<Item>, lo: nat, hi: nat, x: string)
    requires DistinctKeys(contents) && hi <= |contents|
    ensures x in Part(contents, lo, hi).cuts <==> exists p :: lo <= p < hi && contents[p].0 == x
  {
    var sl := Slice(contents, lo, hi);
    FromPairsKeys(sl, |sl|, x);
    if lo < hi {
      forall p | lo <= p < hi
        ensures contents[p] == sl[p - lo]
      {
      }
      if x in Part(contents, lo, hi).cuts {
        var q :| 0 <= q < |sl| && sl[q].0 == x;
        assert contents[lo + q] == sl[q];
      }
    }
  }

  /** Parts cover disjoint ranges of items with distinct keys, so no id is in two parts. */
  lemma {:induction false} PartsDisjoint(contents: seq<Item>, k: nat, chunk: nat, n: nat)
    requires DistinctKeys(contents) && |contents| == n
    ensures PairwiseDisjoint(Parts(contents, k, chunk, n), k)
  {
    var parts := Parts(contents, k, chunk, n);
    forall i, j | 0 <= i < j < k
      ensures parts[i].cuts.Keys !! parts[j].cuts.Keys
    {
      PartAtDisjoint(contents, chunk, n, i, j);
    }
  }

  /** An earlier part shares no key with a later one. */
  lemma {:induction false} PartAtDisjoint(contents: seq<Item>, chunk: nat, n: nat, i: nat, j: nat)
    requires DistinctKeys(contents) && |contents| == n && i < j
    ensures PartAt(contents, i, chunk, n).cuts.Keys !! PartAt(contents, j, chunk, n).cuts.Keys
  {
    StartMonotone(i + 1, j, chunk);
    SeparatePartsDisjoint(contents, Start(i, chunk), MinInt(n, Start(i + 1, chunk)),
                          Start(j, chunk), MinInt(n, Start(j + 1, chunk)));
  }

  /** Parts over ranges that do not overlap share no key. */
  lemma {:induction false} SeparatePartsDisjoint(contents: seq<Item>, lo1: nat, hi1: nat, lo2: nat, hi2: nat)
    requires DistinctKeys(contents) && hi1 <= lo2 && hi1 <= |contents| && hi2 <= |contents|
    ensures Part(contents, lo1, hi1).cuts.Keys !! Part(contents, lo2, hi2).cuts.Keys
  {
    forall x | x in Part(contents, lo1, hi1).cuts
      ensures x !in Part(contents, lo2, hi2).cuts
    {
      PartKeys(contents, lo1, hi1, x);
      PartKeys(contents, lo2, hi2, x);
      var p :| lo1 <= p < hi1 && contents[p].0 == x;
      assert p < lo2;
    }
  }

  /** Split without randomize: the parts, read in order, give back the set's
      items with no loss or duplication; no id is in two parts, and no part
      holds more than a chunk. */
  lemma {:induction false} SplitInOrder(s: CutSet, k: int)
    requires WellFormed(s) && 1 <= k <= Len(s)
    ensures var parts := Split(s, k, false, []).value;
      && AllItems(parts, k) == Items(s)
      && PairwiseDisjoint(parts, k)
      && forall i :: 0 <= i < k ==> Len(parts[i]) <= Chunk(Len(s), k)
  {
    SplitContentsDistinct(s, false, []);
    SplitParts(s, k, false, []);
  }

  /** Split with randomize: the parts hold a permutation of the set's items,
      so the multiset of (id, cut) pairs is preserved and no id is in two parts. */
  lemma {:induction false} SplitRandomized(s: CutSet, k: int, shuffled: seq<Item>)
    requires WellFormed(s) && 1 <= k <= Len(s)
    requires multiset(shuffled) == multiset(Items(s))
    ensures var parts := Split(s, k, true, shuffled).value;
      && multiset(AllItems(parts, k)) == multiset(Items(s))
      && PairwiseDisjoint(parts, k)
      && forall i :: 0 <= i < k ==> Len(parts[i]) <= Chunk(Len(s), k)
  {
    SplitContentsDistinct(s, true, shuffled);
    SplitParts(s, k, true, shuffled);
  }

  lemma {:induction false} SplitParts(s: CutSet, k: int, randomize: bool, shuffled: seq<Item>)
    requires WellFormed(s) && 1 <= k <= Len(s)
    requires randomize ==> multiset(shuffled) == multiset(Items(s))
    ensures var parts := Split(s, k, randomize, shuffled).value;
      && AllItems(parts, k) == SplitContents(s, randomize, shuffled)
      && PairwiseDisjoint(parts, k)
      && forall i :: 0 <= i < k ==> Len(parts[i]) <= Chunk(Len(s), k)
  {
    var n := Len(s);
    var contents := SplitContents(s, randomize, shuffled);
    SplitContentsDistinct(s, randomize, shuffled);
    assert 1 <= Chunk(n, k) by {
      ChunkCovers(n, k);
    }
    var chunk: nat := Chunk(n, k);
    var parts := Parts(contents, k, chunk, n);
    assert Split(s, k, randomize, shuffled) == Ok(parts);
    assert MinInt(n, Start(k, chunk)) == n by {
      ChunkCovers(n, k);
      StartIsProduct(k, chunk);
    }
    SplitPartsOf(contents, k, chunk, n);
  }

  /** Parts of `chunk` items that reach the end of the contents read back as
      the contents, share no id and hold at most `chunk` cuts each. */
  lemma SplitPartsOf(contents: seq<Item>, k: nat, chunk: nat, n: nat)
    requires DistinctKeys(contents) && |contents| == n
    requires MinInt(n, Start(k, chunk)) == n
    ensures var parts := Parts(contents, k, chunk, n);
      && AllItems(parts, k) == contents
      && PairwiseDisjoint(parts, k)
      && forall i :: 0 <= i < k ==> Len(parts[i]) <= chunk
  {
    var parts := Parts(contents, k, chunk, n);
    assert AllItems(parts, k) == contents by {
      PartsSlices(contents, k, chunk, n);
      AllItemsPrefix(contents, chunk, n, parts, k);
      assert contents[..n] == contents;
    }
    assert PairwiseDisjoint(parts, k) by {
      PartsDisjoint(contents, k, chunk, n);
    }
    PartsLenBound(contents, k, chunk, n);
  }

  /** No part holds more than `chunk` cuts. */
  lemma PartsLenBound(contents: seq<Item>, k: nat, chunk: nat, n: nat)
    requires DistinctKeys(contents)
    ensures var parts := Parts(contents, k, chunk, n);
      forall i :: 0 <= i < k ==> Len(parts[i]) <= chunk
  {
    var parts := Parts(contents, k, chunk, n);
    forall i | 0 <= i < k
      ensures Len(parts[i]) <= chunk
    {
      PartItems(contents, Start(i, chunk), MinInt(n, Start(i + 1, chunk)));
      LenIsOrderLength(parts[i]);
    }
  }

  // ---------------------------------------------------------------------------
  // combine

  /** functools.reduce(add, sets[..k]): the first set is the start value. */
  function CombineUpTo(sets: seq<CutSet>, k: nat): (r: Result<CutSet>)
    requires k <= |sets|
    ensures k == 0 ==> r == Err(EmptyReduce)
    ensures k == 1 ==> r == Ok(sets[0])
    ensures r.Err? && k >= 1 ==> r.error == ConflictingIds
  {
    if k == 0 then Err(EmptyReduce)
    else if k == 1 then Ok(sets[0])
    else
      var acc :- CombineUpTo(sets, k - 1);
      Add(acc, sets[k - 1])
  }

  /** combine(*manifests) for cut sets. */
  function Combine(sets: seq<CutSet>): (r: Result<CutSet>)
    ensures |sets| == 0 ==> r == Err(EmptyReduce)
    ensures |sets| == 1 ==> r == Ok(sets[0])
    ensures r.Err? && |sets| >= 1 ==> r.error == ConflictingIds
  {
    CombineUpTo(sets, |sets|)
  }

  /** The ids of the first k sets. */
  function UnionKeys(sets: seq<CutSet>, k: nat): set<string>
    requires k <= |sets|
  {
    if k == 0 then {} else UnionKeys(sets, k - 1) + sets[k - 1].cuts.Keys
  }

  /** An id is in the union exactly when one of the first k sets holds it. */
  lemma {:induction false} InUnionKeys(sets: seq<CutSet>, k: nat, x: string)
    requires k <= |sets|
    ensures x in UnionKeys(sets, k) <==> exists i :: 0 <= i < k && x in sets[i].cuts
  {
    if k > 0 {
      InUnionKeys(sets, k - 1, x);
    }
  }

  /** None of the first k sets holds any of `keys`. */
  predicate DisjointFrom(sets: seq<CutSet>, k: nat, keys: set<string>)
    requires k <= |sets|
  {
    forall i :: 0 <= i < k ==> sets[i].cuts.Keys !! keys
  }

  /** The union of the first k sets misses `keys` exactly when each of them does. */
  lemma {:induction false} UnionKeysDisjoint(sets: seq<CutSet>, k: nat, keys: set<string>)
    requires k <= |sets|
    ensures UnionKeys(sets, k) !! keys <==> DisjointFrom(sets, k, keys)
  {
    if k > 0 {
      UnionKeysDisjoint(sets, k - 1, keys);
    }
  }

  /** The first k sets are pairwise disjoint exactly when the first k - 1 are
      and the last is disjoint from each of them. */
  lemma PairwiseDisjointSnoc(sets: seq<CutSet>, k: nat)
    requires 1 <= k <= |sets|
    ensures PairwiseDisjoint(sets, k) <==>
      PairwiseDisjoint(sets, k - 1) && DisjointFrom(sets, k - 1, sets[k - 1].cuts.Keys)
  {
  }

  /** Combining fails exactly on a shared id; otherwise the ids are those of
      all the inputs. */
  lemma {:induction false} CombineFailsIffSharedId(sets: seq<CutSet>, k: nat)
    requires 1 <= k <= |sets|
    ensures CombineUpTo(sets, k).Ok? <==> PairwiseDisjoint(sets, k)
    ensures CombineUpTo(sets, k).Ok? ==> CombineUpTo(sets, k).value.cuts.Keys == UnionKeys(sets, k)
  {
    if k == 1 {
      assert UnionKeys(sets, 1) == {} + sets[0].cuts.Keys;
    } else {
      CombineFailsIffSharedId(sets, k - 1);
      PairwiseDisjointSnoc(sets, k);
      var prev := CombineUpTo(sets, k - 1);
      var last := sets[k - 1].cuts.Keys;
      if prev.Ok? {
        UnionKeysDisjoint(sets, k - 1, last);
        var r := Add(prev.value, sets[k - 1]);
        assert CombineUpTo(sets, k) == r;
        assert r.Ok? <==> UnionKeys(sets, k - 1) !! last;
        assert r.Ok? ==> r.value.cuts.Keys == UnionKeys(sets, k - 1) + last;
      } else {
        assert !PairwiseDisjoint(sets, k - 1);
        assert CombineUpTo(sets, k).Err?;
      }
    }
  }

  function SumLen(sets: seq<CutSet>, k: nat): nat
    requires k <= |sets|
  {
    if k == 0 then 0 else SumLen(sets, k - 1) + Len(sets[k - 1])
  }

  /** The first `k` sets combine into a well-formed set listing their items
      one set after the other, whose length is the sum of their lengths. */
  predicate CombinesInOrder(sets: seq<CutSet>, k: nat)
    requires k <= |sets| && AllWellFormed(sets)
  {
    && CombineUpTo(sets, k).Ok?
    && WellFormed(CombineUpTo(sets, k).value)
    && Items(CombineUpTo(sets, k).value) == AllItems(sets, k)
    && Len(CombineUpTo(sets, k).value) == SumLen(sets, k)
  }

  /** Combining sets with distinct ids lists their items one set after the
      other, and its length is the sum of their lengths. */
  lemma CombineItems(sets: seq<CutSet>, k: nat)
    requires 1 <= k <= |sets| && AllWellFormed(sets)
    requires PairwiseDisjoint(sets, k)
    ensures CombinesInOrder(sets, k)
  {
    CombineFailsIffSharedId(sets, k);
    CombinedInOrder(sets, k);
  }

  /** A combination that succeeds lists the items of its inputs in order. */
  lemma {:induction false} CombinedInOrder(sets: seq<CutSet>, k: nat)
    requires 1 <= k <= |sets| && AllWellFormed(sets)
    requires CombineUpTo(sets, k).Ok?
    ensures CombinesInOrder(sets, k)
  {
    if k == 1 {
      CombineOne(sets);
    } else {
      CombinedInOrder(sets, k - 1);
      CombineStep(sets, k);
    }
  }

  /** One more set appends its items to the combination so far. */
  lemma CombineStep(sets: seq<CutSet>, k: nat)
    requires 2 <= k <= |sets| && AllWellFormed(sets)
    requires CombineUpTo(sets, k).Ok?
    requires CombinesInOrder(sets, k - 1)
    ensures CombinesInOrder(sets, k)
  {
    var acc := CombineUpTo(sets, k - 1).value;
    assert CombineUpTo(sets, k) == Add(acc, sets[k - 1]);
    AddItems(acc, sets[k - 1]);
  }

  lemma CombineOne(sets: seq<CutSet>)
    requires 1 <= |sets| && AllWellFormed(sets)
    ensures CombinesInOrder(sets, 1)
  {
    assert AllItems(sets, 1) == [] + Items(sets[0]);
  }

  /** Combining the parts of an in-order split gives the set back. */
  lemma {:induction false} CombineSplitInOrder(s: CutSet, k: int)
    requires WellFormed(s) && 1 <= k <= Len(s)
    ensures Combine(Split(s, k, false, []).value) == Ok(s)
  {
    var parts := Split(s, k, false, []).value;
    SplitInOrder(s, k);
    CombineItems(parts, k);
    ItemsDetermine(CombineUpTo(parts, k).value, s);
  }

  /** Combining the parts of a randomized split gives the same dictionary
      back, possibly in another order. */
  lemma {:induction false} CombineSplitRandomized(s: CutSet, k: int, shuffled: seq<Item>)
    requires WellFormed(s) && 1 <= k <= Len(s)
    requires multiset(shuffled) == multiset(Items(s))
    ensures Combine(Split(s, k, true, shuffled).value).Ok?
    ensures Combine(Split(s, k, true, shuffled).value).value.cuts == s.cuts
  {
    var parts := Split(s, k, true, shuffled).value;
    SplitParts(s, k, true, shuffled);
    CombineItems(parts, k);
    var r := CombineUpTo(parts, k).value;
    assert Items(r) == shuffled;
    SameItemsSameCuts(r, s);
  }

  /** Well-formed dictionaries whose items are permutations of each other map
      the same ids to the same cuts. */
  lemma {:induction false} SameItemsSameCuts(r: CutSet, s: CutSet)
    requires WellFormed(r) && WellFormed(s)
    requires multiset(Items(r)) == multiset(Items(s))
    ensures r.cuts == s.cuts
  {
    forall x | x in s.cuts
      ensures x in r.cuts && r.cuts[x] == s.cuts[x]
    {
      SharedItem(r, s, x);
    }
    forall x | x in r.cuts
      ensures x in s.cuts
    {
      SharedItem(s, r, x);
    }
  }

  /** An id of `s` appears in `r`, with the same cut, when both list the same items. */
  lemma SharedItem(r: CutSet, s: CutSet, x: string)
    requires WellFormed(r) && WellFormed(s)
    requires multiset(Items(r)) == multiset(Items(s))
    requires x in s.cuts
    ensures x in r.cuts && r.cuts[x] == s.cuts[x]
  {
    var i :| 0 <= i < |s.order| && s.order[i] == x;
    assert Items(s)[i] in multiset(Items(r));
    var p :| 0 <= p < |r.order| && Items(r)[p] == Items(s)[i];
  }

  // ---------------------------------------------------------------------------
  // to_manifest

  /** to_manifest over cuts: nothing for no items, else CutSet.from_cuts. */
  function ToManifest(items: seq<AnyCut>): (r: Option<CutSet>)
    ensures r.None? <==> |items| == 0
  {
    if |items| == 0 then None else Some(FromCuts(items))
  }

  /** A non-empty cut set turned into loose cuts and back is unchanged. */
  lemma {:induction false} ToManifestOfValues(s: CutSet)
    requires Valid(s) && Len(s) > 0
    ensures ToManifest(Values(s)) == Some(s)
  {
    LenIsOrderLength(s);
    FromCutsOfValues(s);
  }
}
