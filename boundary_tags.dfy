/** The list comprehensions the 2-D scatterer scripts apply to gmsh's
    `(dim, tag)` lists, and the pairing of tag lists with the configured
    physical groups. */
module BoundaryTags {

  /** A gmsh `(dim, tag)` pair. In an oriented boundary the sign of `tag`
      gives the orientation of the curve. */
  datatype DimTag = DimTag(dim: int, tag: int)

  predicate IsNegative(t: int) { t < 0 }
  predicate IsPositive(t: int) { t > 0 }
  predicate IsZero(t: int) { t == 0 }

  /** `[DimTag[1] for DimTag in b]`: the second components, same length and order. */
  function Tags(b: seq<DimTag>): (r: seq<int>)
    ensures |r| == |b|
    ensures forall k :: 0 <= k < |b| ==> r[k] == b[k].tag
  {
    if b == [] then [] else Tags(b[..|b| - 1]) + [b[|b| - 1].tag]
  }

  /** The positions of `s` whose entry satisfies `p`, in increasing order: the
      reference every filtering comprehension below is stated against. */
  function Positions(s: seq<int>, p: int -> bool): (r: seq<nat>)
    ensures forall k :: 0 <= k < |r| ==> r[k] < |s| && p(s[r[k]])
    ensures forall k, l :: 0 <= k < l < |r| ==> r[k] < r[l]
    ensures forall i :: 0 <= i < |s| && p(s[i]) ==> i in r
  {
    if s == [] then []
    else Positions(s[..|s| - 1], p) + (if p(s[|s| - 1]) then [|s| - 1] else [])
  }

  /** The membership tests `t in b` and `t not in b` as filter conditions. */
  function In(b: seq<int>): int -> bool {
    x => x in b
  }

  function NotIn(b: seq<int>): int -> bool {
    x => x !in b
  }

  /** `[t for t in s if p(t)]`. */
  function Filter(s: seq<int>, p: int -> bool): (r: seq<int>)
    ensures forall t :: t in r <==> t in s && p(t)
  {
    if s == [] then []
    else
      assert s == s[..|s| - 1] + [s[|s| - 1]];
      Filter(s[..|s| - 1], p) + (if p(s[|s| - 1]) then [s[|s| - 1]] else [])
  }

  /** The k-th kept entry is the entry at the k-th satisfying position: the
      filter keeps exactly the satisfying entries, in their original order. */
  lemma {:induction false} FilterAt(s: seq<int>, p: int -> bool)
    ensures |Filter(s, p)| == |Positions(s, p)|
    ensures forall k :: 0 <= k < |Filter(s, p)| ==> Filter(s, p)[k] == s[Positions(s, p)[k]]
  {
    if s != [] {
      var init := s[..|s| - 1];
      FilterAt(init, p);
      forall k | 0 <= k < |Positions(init, p)|
        ensures s[Positions(init, p)[k]] == init[Positions(init, p)[k]]
      {
      }
    }
  }

  /** Each satisfying value keeps its multiplicity; every other value is gone. */
  lemma {:induction false} FilterCount(s: seq<int>, p: int -> bool)
    ensures forall t :: multiset(Filter(s, p))[t] == if p(t) then multiset(s)[t] else 0
  {
    if s != [] {
      var init := s[..|s| - 1];
      FilterCount(init, p);
      assert s == init + [s[|s| - 1]];
    }
  }

  /** `[-t[1] for t in b if t[1] < 0]`: the curves with negative orientation,
      as positive tags. */
  function NegatedNegatives(b: seq<DimTag>): (r: seq<int>)
    ensures forall k :: 0 <= k < |r| ==> r[k] > 0
  {
    if b == [] then []
    else
      var last := b[|b| - 1].tag;
      NegatedNegatives(b[..|b| - 1]) + (if last < 0 then [-last] else [])
  }

  /** `[t[1] for t in b if t[1] > 0]`: the curves with positive orientation. */
  function Positives(b: seq<DimTag>): (r: seq<int>)
    ensures forall k :: 0 <= k < |r| ==> r[k] > 0
  {
    if b == [] then []
    else
      var last := b[|b| - 1].tag;
      Positives(b[..|b| - 1]) + (if last > 0 then [last] else [])
  }

  lemma TagsPrefix(b: seq<DimTag>)
    requires b != []
    ensures Tags(b[..|b| - 1]) == Tags(b)[..|b| - 1]
  {
  }

  /** `Positives(b)` keeps, in order, exactly the positive entries of `b`. */
  lemma {:induction false} PositivesIsFilter(b: seq<DimTag>)
    ensures Positives(b) == Filter(Tags(b), IsPositive)
  {
    if b != [] {
      PositivesIsFilter(b[..|b| - 1]);
      TagsPrefix(b);
    }
  }

  /** `NegatedNegatives(b)` is, in order, the negation of every negative entry of `b`. */
  lemma {:induction false} NegatedNegativesIsFilter(b: seq<DimTag>)
    ensures |NegatedNegatives(b)| == |Filter(Tags(b), IsNegative)|
    ensures forall k :: 0 <= k < |NegatedNegatives(b)| ==>
      NegatedNegatives(b)[k] == -Filter(Tags(b), IsNegative)[k]
  {
    if b != [] {
      NegatedNegativesIsFilter(b[..|b| - 1]);
      TagsPrefix(b);
    }
  }

  /** `r` is, in order, the tag at every positive position of `b`. */
  ghost predicate KeepsPositives(r: seq<int>, b: seq<DimTag>) {
    var pos := Positions(Tags(b), IsPositive);
    && |r| == |pos|
    && forall k :: 0 <= k < |r| ==> r[k] == b[pos[k]].tag
  }

  /** `r` is, in order, the negated tag at every negative position of `b`. */
  ghost predicate KeepsNegatedNegatives(r: seq<int>, b: seq<DimTag>) {
    var pos := Positions(Tags(b), IsNegative);
    && |r| == |pos|
    && forall k :: 0 <= k < |r| ==> r[k] == -b[pos[k]].tag
  }

  /** Position form of the positive split: the k-th entry of `Positives(b)` is
      the tag at the k-th positive position of `b`. */
  lemma PositivesAt(b: seq<DimTag>)
    ensures KeepsPositives(Positives(b), b)
  {
    PositivesIsFilter(b);
    FilterAt(Tags(b), IsPositive);
  }

  /** Position form of the negative split. */
  lemma NegatedNegativesAt(b: seq<DimTag>)
    ensures KeepsNegatedNegatives(NegatedNegatives(b), b)
  {
    NegatedNegativesIsFilter(b);
    FilterAt(Tags(b), IsNegative);
  }

  /** A tag is a scatterer curve exactly when its negation occurs in `b`. */
  lemma {:induction false} NegatedNegativesMembers(b: seq<DimTag>)
    ensures forall x :: x in NegatedNegatives(b) <==> x > 0 && -x in Tags(b)
  {
    if b != [] {
      var init := b[..|b| - 1];
      NegatedNegativesMembers(init);
      TagsPrefix(b);
      assert Tags(b) == Tags(init) + [b[|b| - 1].tag];
    }
  }

  /** A tag is kept by the positive split exactly when it is a positive entry of `b`. */
  lemma PositivesMembers(b: seq<DimTag>)
    ensures forall x :: x in Positives(b) <==> x > 0 && x in Tags(b)
  {
    PositivesIsFilter(b);
  }

  /** Every entry lands in exactly one of the negative, positive and zero parts. */
  lemma {:induction false} SplitCount(b: seq<DimTag>)
    ensures |NegatedNegatives(b)| + |Positives(b)| + |Filter(Tags(b), IsZero)| == |b|
  {
    if b != [] {
      SplitCount(b[..|b| - 1]);
      TagsPrefix(b);
    }
  }

  /** The two sign-split lists together are never longer than the boundary,
      and are exactly as long when no entry is 0. */
  lemma SplitLength(b: seq<DimTag>)
    ensures |NegatedNegatives(b)| + |Positives(b)| <= |b|
    ensures |NegatedNegatives(b)| + |Positives(b)| == |b| <==> 0 !in Tags(b)
  {
    SplitCount(b);
    var z := Filter(Tags(b), IsZero);
    if 0 in Tags(b) {
      assert 0 in z;
    }
  }

  /** Everything the two comprehensions of a signed split promise: each
      keeps its entries in order, the positive curves and the negated
      negative curves are exactly the curves of that orientation, and zero
      tags land in neither list. */
  lemma SignSplit(b: seq<DimTag>)
    ensures KeepsNegatedNegatives(NegatedNegatives(b), b)
    ensures KeepsPositives(Positives(b), b)
    ensures forall x :: x in NegatedNegatives(b) <==> x > 0 && -x in Tags(b)
    ensures forall x :: x in Positives(b) <==> x > 0 && x in Tags(b)
    ensures |NegatedNegatives(b)| + |Positives(b)| <= |b|
    ensures |NegatedNegatives(b)| + |Positives(b)| == |b| <==> 0 !in Tags(b)
  {
    NegatedNegativesAt(b);
    PositivesAt(b);
    NegatedNegativesMembers(b);
    PositivesMembers(b);
    SplitLength(b);
  }

  /** One entry of a script's `BOUNDARY` or `MATERIAL` configuration list. */
  datatype GroupConfig = GroupConfig(tag: int, name: string)

  /** One `gmsh.model.addPhysicalGroup(dim, tags, tag=..., name=...)` call. */
  datatype PhysicalGroup = PhysicalGroup(dim: int, tags: seq<int>, tag: int, name: string)

  /** The calls a registration loop issues, and whether it then stopped with
      an `IndexError` on the configuration list. */
  datatype Registration = Registration(calls: seq<PhysicalGroup>, failed: bool)

  /** `for i, tags in enumerate(lists): addPhysicalGroup(dim, tags,
      tag=config[i]['tag'], name=config[i]['name'])`. */
  function Register(dim: int, lists: seq<seq<int>>, config: seq<GroupConfig>): (r: Registration)
    ensures r.failed <==> |config| < |lists|
    ensures |r.calls| == if |config| < |lists| then |config| else |lists|
    ensures forall i :: 0 <= i < |r.calls| ==>
      r.calls[i] == PhysicalGroup(dim, lists[i], config[i].tag, config[i].name)
  {
    if lists == [] then Registration([], false)
    else if config == [] then Registration([], true)
    else
      var rest := Register(dim, lists[1..], config[1..]);
      Registration([PhysicalGroup(dim, lists[0], config[0].tag, config[0].name)] + rest.calls, rest.failed)
  }
}
