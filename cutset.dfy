/** CutSet: an insertion-ordered dictionary from id to cut. A dictionary is
    modelled as the sequence of its keys in insertion order plus the map of
    current values; reassigning an existing key keeps its position. */
module CutSets {
  import opened Base
  import opened Cuts
  import opened MixTruncation

  datatype CutSet = CutSet(order: seq<string>, cuts: map<string, AnyCut>)

  const Empty: CutSet := CutSet([], map[])

  predicate Distinct(xs: seq<string>) {
    forall i, j :: 0 <= i < j < |xs| ==> xs[i] != xs[j]
  }

  /** The representation invariant of a dictionary: every key listed once, and
      the listed keys are exactly the keys of the map. */
  predicate WellFormed(s: CutSet) {
    && Distinct(s.order)
    && (forall k :: k in s.cuts ==> k in s.order)
    && Listed(s)
  }

  /** Every listed key has a value. */
  predicate Listed(s: CutSet) {
    forall i :: 0 <= i < |s.order| ==> s.order[i] in s.cuts
  }

  /** A CutSet built from cuts: every key is the id of its cut. */
  predicate Valid(s: CutSet) {
    && WellFormed(s)
    && forall k :: k in s.cuts ==> Id(s.cuts[k]) == k
  }

  function ElementsOf(xs: seq<string>): set<string> {
    set x | x in xs
  }

  lemma {:induction false} DistinctCardinality(xs: seq<string>)
    requires Distinct(xs)
    ensures |ElementsOf(xs)| == |xs|
  {
    if xs != [] {
      var init := xs[..|xs| - 1];
      var last := xs[|xs| - 1];
      assert Distinct(init);
      DistinctCardinality(init);
      assert ElementsOf(xs) == ElementsOf(init) + {last} by {
        assert xs == init + [last];
      }
      assert last !in ElementsOf(init);
    }
  }

  // ---------------------------------------------------------------------------
  // The dictionary view: len, iteration, items

  /** len(cut_set): the number of keys. */
  function Len(s: CutSet): nat {
    |s.cuts|
  }

  /** The length of a well-formed dictionary is the number of listed keys. */
  lemma {:induction false} LenIsOrderLength(s: CutSet)
    requires WellFormed(s)
    ensures Len(s) == |s.order|
  {
    assert s.cuts.Keys == ElementsOf(s.order);
    DistinctCardinality(s.order);
  }

  /** cut_set.cuts.items(), in insertion order. */
  function Items(s: CutSet): (r: seq<(string, AnyCut)>)
    requires Listed(s)
    ensures |r| == |s.order|
    ensures forall i :: 0 <= i < |r| ==> r[i] == (s.order[i], s.cuts[s.order[i]])
  {
    seq(|s.order|, i requires 0 <= i < |s.order| => (s.order[i], s.cuts[s.order[i]]))
  }

  /** iter(cut_set): the cuts in insertion order. */
  function Values(s: CutSet): (r: seq<AnyCut>)
    requires Listed(s)
    ensures |r| == |s.order|
    ensures forall i :: 0 <= i < |r| ==> r[i] == s.cuts[s.order[i]]
  {
    seq(|s.order|, i requires 0 <= i < |s.order| => s.cuts[s.order[i]])
  }

  predicate DistinctKeys(ps: seq<(string, AnyCut)>) {
    forall i, j :: 0 <= i < j < |ps| ==> ps[i].0 != ps[j].0
  }

  // ---------------------------------------------------------------------------
  // Building a dictionary

  /** d[k] = v: a new key goes last, an existing key keeps its place. */
  function Insert(s: CutSet, k: string, v: AnyCut): (r: CutSet)
    ensures WellFormed(s) ==> WellFormed(r)
    ensures r.cuts == s.cuts[k := v]
    ensures k in s.cuts ==> r.order == s.order
    ensures k !in s.cuts ==> r.order == s.order + [k]
  {
    if k in s.cuts then CutSet(s.order, s.cuts[k := v])
    else CutSet(s.order + [k], s.cuts[k := v])
  }

  /** dict(pairs) over the first `n` pairs. */
  function FromPairsUpTo(ps: seq<(string, AnyCut)>, n: nat): CutSet
    requires n <= |ps|
  {
    if n == 0 then Empty else Insert(FromPairsUpTo(ps, n - 1), ps[n - 1].0, ps[n - 1].1)
  }

  /** Every insertion keeps the dictionary well formed. */
  lemma {:induction false} FromPairsWellFormed(ps: seq<(string, AnyCut)>, n: nat)
    requires n <= |ps|
    ensures WellFormed(FromPairsUpTo(ps, n))
  {
    if n > 0 {
      FromPairsWellFormed(ps, n - 1);
    }
  }

  /** dict(pairs). */
  function FromPairs(ps: seq<(string, AnyCut)>): (r: CutSet)
    ensures WellFormed(r)
  {
    FromPairsWellFormed(ps, |ps|);
    FromPairsUpTo(ps, |ps|)
  }

  /** The keys of dict(pairs) are the keys of the pairs. */
  lemma {:induction false} FromPairsKeys(ps: seq<(string, AnyCut)>, n: nat, k: string)
    requires n <= |ps|
    ensures k in FromPairsUpTo(ps, n).cuts <==> exists i :: 0 <= i < n && ps[i].0 == k
  {
    if n > 0 {
      FromPairsKeys(ps, n - 1, k);
      var prev := FromPairsUpTo(ps, n - 1);
      assert FromPairsUpTo(ps, n).cuts.Keys == prev.cuts.Keys + {ps[n - 1].0};
      if k == ps[n - 1].0 {
        assert 0 <= n - 1 < n && ps[n - 1].0 == k;
      } else if k in prev.cuts {
        var i :| 0 <= i < n - 1 && ps[i].0 == k;
        assert 0 <= i < n && ps[i].0 == k;
      } else {
        forall i | 0 <= i < n
          ensures ps[i].0 != k
        {
          if i < n - 1 {
            assert !(0 <= i < n - 1 && ps[i].0 == k);
          }
        }
      }
    }
  }

  /** The value under a key is that of its last pair. */
  lemma {:induction false} FromPairsLastWins(ps: seq<(string, AnyCut)>, n: nat, j: nat)
    requires j < n <= |ps|
    requires forall i :: j < i < n ==> ps[i].0 != ps[j].0
    ensures ps[j].0 in FromPairsUpTo(ps, n).cuts
    ensures FromPairsUpTo(ps, n).cuts[ps[j].0] == ps[j].1
  {
    if j < n - 1 {
      FromPairsLastWins(ps, n - 1, j);
    }
  }

  /** With distinct keys, dict(pairs) lists the keys in the order given. */
  lemma {:induction false} FromPairsDistinctOrder(ps: seq<(string, AnyCut)>, n: nat)
    requires n <= |ps| && DistinctKeys(ps)
    ensures |FromPairsUpTo(ps, n).order| == n
    ensures forall i :: 0 <= i < n ==> FromPairsUpTo(ps, n).order[i] == ps[i].0
  {
    if n > 0 {
      FromPairsDistinctOrder(ps, n - 1);
      var prev := FromPairsUpTo(ps, n - 1);
      var k := ps[n - 1].0;
      assert k !in prev.cuts by {
        FromPairsKeys(ps, n - 1, k);
        assert forall i :: 0 <= i < n - 1 ==> ps[i].0 != k;
      }
      var order := FromPairsUpTo(ps, n).order;
      assert order == prev.order + [k] by {
        assert FromPairsUpTo(ps, n) == Insert(prev, k, ps[n - 1].1);
      }
      KeysSnoc(prev.order, ps, n - 1);
    }
  }

  lemma {:induction false} KeysSnoc(order: seq<string>, ps: seq<(string, AnyCut)>, n: nat)
    requires n < |ps| && |order| == n
    requires forall i :: 0 <= i < n ==> order[i] == ps[i].0
    ensures forall i :: 0 <= i <= n ==> (order + [ps[n].0])[i] == ps[i].0
  {
  }

  /** With distinct keys, dict(pairs) gives the pairs back in order. */
  lemma {:induction false} FromPairsItems(ps: seq<(string, AnyCut)>)
    requires DistinctKeys(ps)
    ensures Items(FromPairs(ps)) == ps
  {
    var r := FromPairs(ps);
    FromPairsDistinctOrder(ps, |ps|);
    forall i | 0 <= i < |ps|
      ensures Items(r)[i] == ps[i]
    {
      FromPairsLastWins(ps, |ps|, i);
    }
  }

  /** The (id, cut) pairs of a sequence of cuts. */
  function KeyedById(cs: seq<AnyCut>): (r: seq<(string, AnyCut)>)
    ensures |r| == |cs| && forall i :: 0 <= i < |cs| ==> r[i] == (Id(cs[i]), cs[i])
  {
    seq(|cs|, i requires 0 <= i < |cs| => (Id(cs[i]), cs[i]))
  }

  /** CutSet.from_cuts: `{cut.id: cut for cut in cuts}`. */
  function FromCuts(cs: seq<AnyCut>): (r: CutSet)
    ensures Valid(r)
  {
    var r := FromPairs(KeyedById(cs));
    assert forall k :: k in r.cuts ==> Id(r.cuts[k]) == k by {
      forall k | k in r.cuts
        ensures Id(r.cuts[k]) == k
      {
        FromPairsKeys(KeyedById(cs), |cs|, k);
        var j := LastWithId(cs, k, |cs|);
        FromPairsLastWins(KeyedById(cs), |cs|, j);
      }
    }
    r
  }

  /** The largest index below `n` whose cut has id `k`. */
  function LastWithId(cs: seq<AnyCut>, k: string, n: nat): (j: nat)
    requires n <= |cs| && exists i :: 0 <= i < n && Id(cs[i]) == k
    ensures j < n && Id(cs[j]) == k
    ensures forall i :: j < i < n ==> Id(cs[i]) != k
  {
    if Id(cs[n - 1]) == k then n - 1 else LastWithId(cs, k, n - 1)
  }

  /** from_cuts keys every cut by its id, and the later duplicate wins. */
  lemma {:induction false} FromCutsLookup(cs: seq<AnyCut>, k: string)
    ensures k in FromCuts(cs).cuts <==> exists i :: 0 <= i < |cs| && Id(cs[i]) == k
    ensures k in FromCuts(cs).cuts ==> FromCuts(cs).cuts[k] == cs[LastWithId(cs, k, |cs|)]
  {
    FromPairsKeys(KeyedById(cs), |cs|, k);
    if exists i :: 0 <= i < |cs| && Id(cs[i]) == k {
      FromPairsLastWins(KeyedById(cs), |cs|, LastWithId(cs, k, |cs|));
    }
  }

  predicate DistinctIds(cs: seq<AnyCut>) {
    forall i, j :: 0 <= i < j < |cs| ==> Id(cs[i]) != Id(cs[j])
  }

  /** from_cuts over cuts with distinct ids keeps all of them, in order. */
  lemma {:induction false} FromCutsDistinct(cs: seq<AnyCut>)
    requires DistinctIds(cs)
    ensures Values(FromCuts(cs)) == cs
    ensures Len(FromCuts(cs)) == |cs|
  {
    var ps := KeyedById(cs);
    assert DistinctKeys(ps);
    FromPairsItems(ps);
    var r := FromCuts(cs);
    forall i | 0 <= i < |cs|
      ensures Values(r)[i] == cs[i]
    {
      assert Items(r)[i] == ps[i];
    }
    LenIsOrderLength(r);
  }

  /** Building a CutSet from its own cuts gives it back. */
  lemma {:induction false} FromCutsOfValues(s: CutSet)
    requires Valid(s)
    ensures FromCuts(Values(s)) == s
  {
    var ps := KeyedById(Values(s));
    assert ps == Items(s);
    FromPairsItems(ps);
    ItemsDetermine(FromCuts(Values(s)), s);
  }

  /** Well-formed dictionaries with the same items are equal. */
  lemma {:induction false} ItemsDetermine(a: CutSet, b: CutSet)
    requires WellFormed(a) && WellFormed(b) && Items(a) == Items(b)
    ensures a == b
  {
    assert a.order == b.order by {
      forall i | 0 <= i < |a.order|
        ensures a.order[i] == b.order[i]
      {
        assert Items(a)[i].0 == Items(b)[i].0;
      }
    }
    forall x | x in a.cuts
      ensures x in b.cuts && a.cuts[x] == b.cuts[x]
    {
      var i :| 0 <= i < |a.order| && a.order[i] == x;
      assert Items(a)[i].1 == Items(b)[i].1;
    }
    assert a.cuts == b.cuts;
  }


  // ---------------------------------------------------------------------------
  // Membership and lookup

  /** What `in` accepts: an id or a cut. */
  datatype Member = ById(id: string) | ByCut(cut: AnyCut)

  /** CutSet.__contains__. */
  function Contains(s: CutSet, item: Member): bool {
    match item
    case ById(k) => k in s.cuts
    case ByCut(c) => Id(c) in s.cuts
  }

  /** Membership of a cut is membership of its id; every cut given to
      from_cuts is a member, and an id is a member iff some cut carries it. */
  lemma {:induction false} ContainsById(cs: seq<AnyCut>, c: AnyCut, k: string)
    ensures Contains(FromCuts(cs), ByCut(c)) == Contains(FromCuts(cs), ById(Id(c)))
    ensures c in cs ==> Contains(FromCuts(cs), ByCut(c))
    ensures Contains(FromCuts(cs), ById(k)) <==> exists i :: 0 <= i < |cs| && Id(cs[i]) == k
  {
    FromCutsLookup(cs, k);
    FromCutsLookup(cs, Id(c));
    if c in cs {
      var i :| 0 <= i < |cs| && cs[i] == c;
    }
  }

  /** CutSet.__getitem__: a missing id raises. */
  function Get(s: CutSet, k: string): (r: Result<AnyCut>)
    ensures r.Ok? <==> Contains(s, ById(k))
    ensures r.Err? ==> r.error == MissingId(k)
    ensures Valid(s) && r.Ok? ==> Id(r.value) == k
  {
    if k in s.cuts then Ok(s.cuts[k]) else Err(MissingId(k))
  }

  // ---------------------------------------------------------------------------
  // Union

  /** CutSet.__add__: the union of two sets with disjoint ids. */
  function Add(a: CutSet, b: CutSet): (r: Result<CutSet>)
    ensures r.Ok? <==> a.cuts.Keys !! b.cuts.Keys
    ensures r.Err? ==> r.error == ConflictingIds
    ensures r.Ok? ==> r.value.cuts.Keys == a.cuts.Keys + b.cuts.Keys
    ensures r.Ok? && Valid(a) && Valid(b) ==> Valid(r.value)
  {
    if !(a.cuts.Keys !! b.cuts.Keys) then Err(ConflictingIds)
    else Ok(CutSet(a.order + b.order, a.cuts + b.cuts))
  }

  /** The union of well-formed sets lists a's cuts, then b's, and its length
      is the sum of the lengths. */
  lemma {:induction false} AddItems(a: CutSet, b: CutSet)
    requires WellFormed(a) && WellFormed(b) && a.cuts.Keys !! b.cuts.Keys
    ensures var r := Add(a, b).value;
      && WellFormed(r)
      && Items(r) == Items(a) + Items(b)
      && Len(r) == Len(a) + Len(b)
  {
    var r := Add(a, b).value;
    assert r == CutSet(a.order + b.order, a.cuts + b.cuts);
    UnionWellFormed(a, b, r);
    ItemsOfUnion(a, b, r);
    LenIsOrderLength(a);
    LenIsOrderLength(b);
    LenIsOrderLength(r);
  }

  /** The union of well-formed sets with disjoint ids is well formed. */
  lemma UnionWellFormed(a: CutSet, b: CutSet, r: CutSet)
    requires WellFormed(a) && WellFormed(b) && a.cuts.Keys !! b.cuts.Keys
    requires r == CutSet(a.order + b.order, a.cuts + b.cuts)
    ensures WellFormed(r)
  {
    var na := |a.order|;
    assert forall i :: 0 <= i < na ==> r.order[i] == a.order[i];
    assert forall j :: na <= j < |r.order| ==> r.order[j] == b.order[j - na];
    assert Distinct(r.order) by {
      forall i, j | 0 <= i < j < |r.order|
        ensures r.order[i] != r.order[j]
      {
        if i < na && j >= na {
          assert r.order[i] in a.cuts.Keys;
          assert r.order[j] in b.cuts.Keys;
        }
      }
    }
    assert forall i :: 0 <= i < |r.order| ==> r.order[i] in r.cuts;
    assert forall k :: k in r.cuts ==> k in r.order by {
      forall k | k in r.cuts
        ensures k in r.order
      {
        if k in a.cuts {
          var i :| 0 <= i < na && a.order[i] == k;
          assert r.order[i] == k;
        } else {
          var j :| 0 <= j < |b.order| && b.order[j] == k;
          assert r.order[na + j] == k;
        }
      }
    }
  }

  lemma UnionItemAt(a: CutSet, b: CutSet, r: CutSet, i: nat)
    requires Listed(a) && Listed(b) && Listed(r) && a.cuts.Keys !! b.cuts.Keys
    requires r == CutSet(a.order + b.order, a.cuts + b.cuts)
    requires i < |r.order|
    ensures Items(r)[i] == (Items(a) + Items(b))[i]
  {
    var na := |a.order|;
    var k := r.order[i];
    assert Items(r)[i] == (k, r.cuts[k]);
    if i < na {
      assert k == a.order[i] && k in a.cuts && k !in b.cuts;
      assert (Items(a) + Items(b))[i] == Items(a)[i] == (k, a.cuts[k]);
    } else {
      assert k == b.order[i - na] && k in b.cuts;
      assert (Items(a) + Items(b))[i] == Items(b)[i - na] == (k, b.cuts[k]);
    }
  }

  lemma {:induction false} ItemsOfUnion(a: CutSet, b: CutSet, r: CutSet)
    requires WellFormed(a) && WellFormed(b) && WellFormed(r) && a.cuts.Keys !! b.cuts.Keys
    requires r == CutSet(a.order + b.order, a.cuts + b.cuts)
    ensures Items(r) == Items(a) + Items(b)
  {
    forall i | 0 <= i < |r.order|
      ensures Items(r)[i] == (Items(a) + Items(b))[i]
    {
      UnionItemAt(a, b, r, i);
    }
  }

  // ---------------------------------------------------------------------------
  // The two variants

  /** The keys of `order` whose cut is (or is not) a mix, in order. */
  function KeysOfKind(order: seq<string>, cuts: map<string, AnyCut>, mixed: bool): (r: seq<string>)
    ensures forall k :: k in r <==> k in order && k in cuts && cuts[k].Mixed? == mixed
  {
    if order == [] then []
    else
      var k := order[0];
      (if k in cuts && cuts[k].Mixed? == mixed then [k] else []) + KeysOfKind(order[1..], cuts, mixed)
  }

  function OfKind(s: CutSet, mixed: bool): CutSet {
    CutSet(KeysOfKind(s.order, s.cuts, mixed), map k | k in s.cuts && s.cuts[k].Mixed? == mixed :: s.cuts[k])
  }

  /** CutSet.mixed_cuts. */
  function MixedCuts(s: CutSet): (r: CutSet)
    ensures forall k :: k in r.cuts ==> k in s.cuts && r.cuts[k] == s.cuts[k] && r.cuts[k].Mixed?
    ensures forall k :: k in s.cuts && s.cuts[k].Mixed? ==> k in r.cuts
  {
    OfKind(s, true)
  }

  /** CutSet.simple_cuts. */
  function SimpleCuts(s: CutSet): (r: CutSet)
    ensures forall k :: k in r.cuts ==> k in s.cuts && r.cuts[k] == s.cuts[k] && r.cuts[k].Simple?
    ensures forall k :: k in s.cuts && s.cuts[k].Simple? ==> k in r.cuts
  {
    OfKind(s, false)
  }

  /** mixed_cuts and simple_cuts split the set: disjoint keys covering all of
      it, the right variant on each side, and lengths adding up. */
  lemma {:induction false} MixedSimplePartition(s: CutSet)
    ensures MixedCuts(s).cuts.Keys !! SimpleCuts(s).cuts.Keys
    ensures MixedCuts(s).cuts.Keys + SimpleCuts(s).cuts.Keys == s.cuts.Keys
    ensures forall k :: k in MixedCuts(s).cuts ==> MixedCuts(s).cuts[k] == s.cuts[k] && s.cuts[k].Mixed?
    ensures forall k :: k in SimpleCuts(s).cuts ==> SimpleCuts(s).cuts[k] == s.cuts[k] && s.cuts[k].Simple?
    ensures Len(MixedCuts(s)) + Len(SimpleCuts(s)) == Len(s)
  {
    var m := MixedCuts(s).cuts;
    var p := SimpleCuts(s).cuts;
    assert m.Keys + p.Keys == s.cuts.Keys;
    DisjointUnionSize(m.Keys, p.Keys);
    assert |m| == |m.Keys| && |p| == |p.Keys| && |s.cuts| == |s.cuts.Keys|;
  }

  lemma DisjointUnionSize(x: set<string>, y: set<string>)
    requires x !! y
    ensures |x + y| == |x| + |y|
  {
    assert x * y == {};
  }

  /** The tag written by to_yaml and read back by from_yaml. */
  datatype CutKind = SimpleKind | MixedKind

  function KindOf(c: AnyCut): CutKind {
    if c.Simple? then SimpleKind else MixedKind
  }

  /** `type(cut).__name__`. */
  function TypeName(k: CutKind): string {
    match k
    case SimpleKind => "Cut"
    case MixedKind => "MixedCut"
  }

  /** The type dispatch of from_yaml: any other tag raises. */
  function ParseCutType(tag: string): (r: Result<CutKind>)
    ensures r.Err? ==> r.error == UnexpectedCutType(tag)
    ensures r.Ok? ==> TypeName(r.value) == tag
    ensures forall k :: tag == TypeName(k) ==> r == Ok(k)
  {
    if tag == "Cut" then Ok(SimpleKind)
    else if tag == "MixedCut" then Ok(MixedKind)
    else Err(UnexpectedCutType(tag))
  }

  // ---------------------------------------------------------------------------
  // CutSet.truncate

  /** The arguments of CutSet.truncate other than the randomness. */
  datatype TruncateOptions = TruncateOptions(
    maxDuration: Seconds,
    offsetType: string,
    keepExcessive: bool,
    preserveId: bool)

  /** The offset of a long cut: 'start', 'end' or 'random'; `u` is the draw of
      random.random() that random.uniform scales to [0, lastOffset]. */
  function ComputeOffset(offsetType: string, d: Seconds, maxDuration: Seconds, u: real): (r: Result<Seconds>)
    ensures r.Ok? <==> offsetType in {"start", "end", "random"}
    ensures r.Err? ==> r.error == UnknownOffsetType(offsetType)
    ensures r.Ok? && maxDuration <= d && 0.0 <= u <= 1.0 ==> 0.0 <= r.value <= d - maxDuration
    ensures offsetType == "start" ==> r == Ok(0.0)
    ensures offsetType == "end" ==> r.value + maxDuration == d
  {
    if offsetType == "start" then Ok(0.0)
    else
      var lastOffset := d - maxDuration;
      if offsetType == "end" then Ok(lastOffset)
      else if offsetType == "random" then
        ScaledWithin(lastOffset, u);
        Ok(0.0 + (lastOffset - 0.0) * u)
      else Err(UnknownOffsetType(offsetType))
  }

  /** A draw in [0, 1] scales a non-negative length to within [0, length]. */
  lemma ScaledWithin(x: real, u: real)
    ensures 0.0 <= x && 0.0 <= u <= 1.0 ==> 0.0 <= x * u <= x
  {
    if 0.0 < x && 0.0 <= u <= 1.0 {
      MulMonotone(u, 1.0, x);
      MulMonotone(0.0, u, x);
    }
  }

  /** One cut of CutSet.truncate: passed through when short enough, else
      truncated to `maxDuration` at the computed offset. */
  function TruncateOne(c: AnyCut, opts: TruncateOptions, u: real, ids: IdSource): (r: Result<AnyCut>)
    ensures Defined(c) && Duration(c).value <= opts.maxDuration ==> r == Ok(c)
    ensures !Defined(c) ==> r == Err(EmptyMixDuration)
  {
    var d :- Duration(c);
    if d <= opts.maxDuration then Ok(c)
    else
      var offset :- ComputeOffset(opts.offsetType, d, opts.maxDuration, u);
      TruncateAny(c, offset, Some(opts.maxDuration), opts.keepExcessive, opts.preserveId, ids)
  }

  /** The truncated cuts of the first `k` cuts; cut i uses draw draws(i) and ids ids(i). */
  function TruncatedCuts(cs: seq<AnyCut>, k: nat, opts: TruncateOptions, draws: nat -> real,
                         ids: nat -> IdSource): (r: Result<seq<AnyCut>>)
    requires k <= |cs|
    ensures r.Ok? ==> |r.value| == k
  {
    if k == 0 then Ok([])
    else
      var done :- TruncatedCuts(cs, k - 1, opts, draws, ids);
      var t :- TruncateOne(cs[k - 1], opts, draws(k - 1), ids(k - 1));
      Ok(done + [t])
  }

  /** The truncation pass over a sequence of cuts, collected by id. */
  function TruncateAll(cs: seq<AnyCut>, opts: TruncateOptions, draws: nat -> real,
                       ids: nat -> IdSource): (r: Result<CutSet>)
    ensures r.Ok? ==> Valid(r.value)
  {
    var ts :- TruncatedCuts(cs, |cs|, opts, draws, ids);
    Ok(FromCuts(ts))
  }

  /** CutSet.truncate as a value: the pass over the set's cuts in insertion order. */
  function CutSetTruncated(s: CutSet, opts: TruncateOptions, draws: nat -> real,
                           ids: nat -> IdSource): (r: Result<CutSet>)
    requires WellFormed(s)
    ensures r.Ok? ==> Valid(r.value)
  {
    TruncateAll(Values(s), opts, draws, ids)
  }

  lemma {:induction false} TruncatedCutsErrSticky(cs: seq<AnyCut>, k: nat, n: nat, opts: TruncateOptions,
                                                  draws: nat -> real, ids: nat -> IdSource)
    requires k <= n <= |cs|
    requires TruncatedCuts(cs, k, opts, draws, ids).Err?
    ensures TruncatedCuts(cs, n, opts, draws, ids) == TruncatedCuts(cs, k, opts, draws, ids)
  {
    if k < n {
      TruncatedCutsErrSticky(cs, k, n - 1, opts, draws, ids);
    }
  }

  /** One more cut: the pass fails with its error or appends its result. */
  lemma TruncatedCutsStep(cs: seq<AnyCut>, k: nat, opts: TruncateOptions, draws: nat -> real,
                          ids: nat -> IdSource, done: seq<AnyCut>, t: Result<AnyCut>)
    requires k < |cs|
    requires TruncatedCuts(cs, k, opts, draws, ids) == Ok(done)
    requires t == TruncateOne(cs[k], opts, draws(k), ids(k))
    ensures TruncatedCuts(cs, k + 1, opts, draws, ids) == if t.Err? then Err(t.error) else Ok(done + [t.value])
  {
  }

  /** A cut that fails to truncate ends the whole pass with its error. */
  lemma TruncateAllFails(cs: seq<AnyCut>, opts: TruncateOptions, draws: nat -> real, ids: nat -> IdSource,
                         i: nat, done: seq<AnyCut>)
    requires i < |cs| && TruncatedCuts(cs, i, opts, draws, ids) == Ok(done)
    requires TruncateOne(cs[i], opts, draws(i), ids(i)).Err?
    ensures TruncateAll(cs, opts, draws, ids) == Err(TruncateOne(cs[i], opts, draws(i), ids(i)).error)
  {
    TruncatedCutsStep(cs, i, opts, draws, ids, done, TruncateOne(cs[i], opts, draws(i), ids(i)));
    TruncatedCutsErrSticky(cs, i + 1, |cs|, opts, draws, ids);
  }

  /** The loop of CutSet.truncate, appending to `truncatedCuts`. */
  method Truncate(s: CutSet, opts: TruncateOptions, draws: nat -> real, ids: nat -> IdSource)
    returns (r: Result<CutSet>)
    requires WellFormed(s)
    ensures r == CutSetTruncated(s, opts, draws, ids)
  {
    var cs := Values(s);
    var truncatedCuts: seq<AnyCut> := [];
    var i := 0;
    while i < |cs|
      invariant 0 <= i <= |cs|
      invariant TruncatedCuts(cs, i, opts, draws, ids) == Ok(truncatedCuts)
    {
      var t := TruncateOne(cs[i], opts, draws(i), ids(i));
      if t.Err? {
        TruncateAllFails(cs, opts, draws, ids, i, truncatedCuts);
        return Err(t.error);
      }
      TruncatedCutsStep(cs, i, opts, draws, ids, truncatedCuts, t);
      truncatedCuts := truncatedCuts + [t.value];
      i := i + 1;
    }
    return Ok(FromCuts(truncatedCuts));
  }

  /** With a known offset type, a positive bound and a draw in [0, 1], every
      defined cut is truncated successfully: a simple cut to exactly
      `maxDuration`, a mix to tracks that all end within `maxDuration`. */
  lemma {:induction false} TruncateOneBounded(c: AnyCut, opts: TruncateOptions, u: real, ids: IdSource)
    requires Defined(c) && 0.0 < opts.maxDuration && 0.0 <= u <= 1.0
    requires opts.offsetType in {"start", "end", "random"}
    ensures var r := TruncateOne(c, opts, u, ids);
      && r.Ok?
      && (Duration(c).value > opts.maxDuration && c.Simple? ==>
            r.value.Simple? && r.value.cut.duration == opts.maxDuration)
      && (r.value.Mixed? ==> forall t :: t in r.value.mix.tracks ==> TrackEnd(t) <= opts.maxDuration)
      && (Defined(r.value) ==> Duration(r.value).value <= opts.maxDuration)
  {
    var d := Duration(c).value;
    if d > opts.maxDuration {
      var offset := ComputeOffset(opts.offsetType, d, opts.maxDuration, u).value;
      if c.Mixed? {
        MixedTruncatedWithin(c.mix, offset, opts.maxDuration, opts.keepExcessive, opts.preserveId, ids);
      }
    } else if c.Mixed? {
      DurationBounds(c);
    }
  }

  /** A cut longer than `maxDuration` is truncated to `maxDuration` at the
      offset compute_offset gives, which lies in [0, d - maxDuration]. */
  lemma TruncateOneOffset(c: AnyCut, opts: TruncateOptions, u: real, ids: IdSource)
    requires Defined(c) && 0.0 < opts.maxDuration && 0.0 <= u <= 1.0
    requires opts.offsetType in {"start", "end", "random"}
    requires Duration(c).value > opts.maxDuration
    ensures var d := Duration(c).value;
      var o := ComputeOffset(opts.offsetType, d, opts.maxDuration, u);
      && o.Ok? && 0.0 <= o.value <= d - opts.maxDuration
      && TruncateOne(c, opts, u, ids)
         == TruncateAny(c, o.value, Some(opts.maxDuration), opts.keepExcessive, opts.preserveId, ids)
  {
  }

  /** A long simple cut keeps [start + o, start + o + maxDuration) for the
      computed offset o: inside the original, sharing its start for 'start'
      and its end for 'end'. */
  lemma TruncateOneSimpleAtOffset(c: AnyCut, opts: TruncateOptions, u: real, ids: IdSource)
    requires c.Simple? && 0.0 < opts.maxDuration && 0.0 <= u <= 1.0
    requires opts.offsetType in {"start", "end", "random"}
    requires c.cut.duration > opts.maxDuration
    ensures var o := ComputeOffset(opts.offsetType, c.cut.duration, opts.maxDuration, u).value;
      var r := TruncateOne(c, opts, u, ids);
      && r.Ok? && r.value.Simple?
      && r.value.cut.start == c.cut.start + o
      && r.value.cut.duration == opts.maxDuration
      && c.cut.start <= r.value.cut.start
      && CutEnd(r.value.cut) <= CutEnd(c.cut)
      && (opts.offsetType == "start" ==> r.value.cut.start == c.cut.start)
      && (opts.offsetType == "end" ==> CutEnd(r.value.cut) == CutEnd(c.cut))
  {
    TruncateOneOffset(c, opts, u, ids);
  }

  /** A long mix keeps, of each track, its part inside [o, o + maxDuration) for
      the computed offset o: 0 for 'start', the last window for 'end'. */
  lemma TruncateOneMixedAtOffset(c: AnyCut, opts: TruncateOptions, u: real, ids: IdSource)
    requires c.Mixed? && Defined(c) && 0.0 < opts.maxDuration && 0.0 <= u <= 1.0
    requires opts.offsetType in {"start", "end", "random"}
    requires Duration(c).value > opts.maxDuration
    ensures var o := ComputeOffset(opts.offsetType, Duration(c).value, opts.maxDuration, u).value;
      var r := TruncateOne(c, opts, u, ids);
      && r.Ok? && r.value.Mixed?
      && KeepsTrimmed(r.value.mix.tracks, c.mix.tracks, o, opts.maxDuration)
  {
    TruncateOneOffset(c, opts, u, ids);
    var o := ComputeOffset(opts.offsetType, Duration(c).value, opts.maxDuration, u).value;
    MixedTruncatedTracks(c.mix, o, opts.maxDuration, opts.keepExcessive, opts.preserveId, ids);
  }

  /** Whether some cut among the first `k` is longer than `maxDuration`. */
  predicate SomeLonger(cs: seq<AnyCut>, k: nat, maxDuration: Seconds)
    requires k <= |cs|
  {
    exists i :: 0 <= i < k && Defined(cs[i]) && Duration(cs[i]).value > maxDuration
  }

  /** An unknown offset type raises exactly when some cut is longer than
      `maxDuration`; otherwise the cuts pass through unchanged. */
  lemma {:induction false} UnknownOffsetTypeFailsIffLonger(cs: seq<AnyCut>, k: nat, opts: TruncateOptions,
                                                           draws: nat -> real, ids: nat -> IdSource)
    requires k <= |cs| && forall i :: 0 <= i < |cs| ==> Defined(cs[i])
    requires opts.offsetType !in {"start", "end", "random"}
    ensures var r := TruncatedCuts(cs, k, opts, draws, ids);
      && (r.Err? <==> SomeLonger(cs, k, opts.maxDuration))
      && (r.Ok? ==> r.value == cs[..k])
  {
    if k > 0 {
      UnknownOffsetTypeFailsIffLonger(cs, k - 1, opts, draws, ids);
      assert SomeLonger(cs, k, opts.maxDuration)
         <==> SomeLonger(cs, k - 1, opts.maxDuration) || Duration(cs[k - 1]).value > opts.maxDuration;
      assert cs[..k] == cs[..k - 1] + [cs[k - 1]];
    }
  }

  /** With a known offset type, a positive bound and draws in [0, 1], a set of
      defined cuts is truncated successfully, cut by cut in order. */
  lemma {:induction false} TruncatedCutsSucceed(cs: seq<AnyCut>, k: nat, opts: TruncateOptions,
                                                draws: nat -> real, ids: nat -> IdSource)
    requires k <= |cs| && forall i :: 0 <= i < |cs| ==> Defined(cs[i])
    requires 0.0 < opts.maxDuration && forall i :: 0 <= i < |cs| ==> 0.0 <= draws(i) <= 1.0
    requires opts.offsetType in {"start", "end", "random"}
    ensures var r := TruncatedCuts(cs, k, opts, draws, ids);
      && r.Ok?
      && forall i :: 0 <= i < k ==> TruncateOne(cs[i], opts, draws(i), ids(i)) == Ok(r.value[i])
  {
    if k > 0 {
      TruncatedCutsSucceed(cs, k - 1, opts, draws, ids);
      var done := TruncatedCuts(cs, k - 1, opts, draws, ids).value;
      TruncateOneBounded(cs[k - 1], opts, draws(k - 1), ids(k - 1));
      var t := TruncateOne(cs[k - 1], opts, draws(k - 1), ids(k - 1)).value;
      var all := done + [t];
      assert TruncatedCuts(cs, k, opts, draws, ids) == Ok(all);
      forall i | 0 <= i < k
        ensures TruncateOne(cs[i], opts, draws(i), ids(i)) == Ok(all[i])
      {
        if i < k - 1 {
          assert all[i] == done[i];
        }
      }
    }
  }

  /** CutSet.truncate over defined cuts, with a known offset type, a positive
      bound and draws in [0, 1], succeeds; every cut of the result is the
      truncation of one of the set's cuts and lasts at most `maxDuration`. */
  lemma CutSetTruncatedBounded(s: CutSet, opts: TruncateOptions, draws: nat -> real, ids: nat -> IdSource)
    requires WellFormed(s) && forall k :: k in s.cuts ==> Defined(s.cuts[k])
    requires 0.0 < opts.maxDuration && forall i :: 0 <= i < |s.order| ==> 0.0 <= draws(i) <= 1.0
    requires opts.offsetType in {"start", "end", "random"}
    ensures var r := CutSetTruncated(s, opts, draws, ids);
      && r.Ok?
      && forall k :: k in r.value.cuts ==>
           && (exists i :: 0 <= i < |s.order| && TruncateOne(s.cuts[s.order[i]], opts, draws(i), ids(i)) == Ok(r.value.cuts[k]))
           && (Defined(r.value.cuts[k]) ==> Duration(r.value.cuts[k]).value <= opts.maxDuration)
  {
    var cs := Values(s);
    assert forall i :: 0 <= i < |cs| ==> Defined(cs[i]);
    TruncatedCutsSucceed(cs, |cs|, opts, draws, ids);
    var ts := TruncatedCuts(cs, |cs|, opts, draws, ids).value;
    assert CutSetTruncated(s, opts, draws, ids) == Ok(FromCuts(ts));
    forall k | k in FromCuts(ts).cuts
      ensures exists i :: 0 <= i < |s.order| && TruncateOne(s.cuts[s.order[i]], opts, draws(i), ids(i)) == Ok(FromCuts(ts).cuts[k])
      ensures Defined(FromCuts(ts).cuts[k]) ==> Duration(FromCuts(ts).cuts[k]).value <= opts.maxDuration
    {
      FromCutsLookup(ts, k);
      var i := LastWithId(ts, k, |ts|);
      assert cs[i] == s.cuts[s.order[i]];
      TruncateOneBounded(cs[i], opts, draws(i), ids(i));
    }
  }
}
