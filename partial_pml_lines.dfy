/** The curve classification of the vectorial circular scatterer with a
    partial PML (p43_vectorial_circular_pec_scatterer/pre_processing/
    domain_partial_pml_lines.py): the signed boundary of the free-space
    region is split into scatterer and free-space curves, the nine PML
    regions' boundaries are gathered, the internal cut lines and the outer
    PML contour are picked out with set and counting operations, and the
    lists are paired with the script's physical-group tables. */
module PartialPmlLines {
  import opened Sorting
  import opened BoundaryTags

  /** The script's `BOUNDARY` table (tags and names). */
  const Boundary: seq<GroupConfig> := [
    GroupConfig(101, "circular_scatterer"),
    GroupConfig(102, "free_space"),
    GroupConfig(103, "outer_pml"),
    GroupConfig(104, "horizontal_cut_line")
  ]

  /** The script's `MATERIAL` table (tags and names). */
  const Material: seq<GroupConfig> := [
    GroupConfig(201, "free_space"),
    GroupConfig(202, "pml_xy"),
    GroupConfig(203, "pml_x"),
    GroupConfig(204, "pml_y")
  ]

  /** The literal surface lists of `PhysicalGroupsDim2`: the free-space
      region, the four corner regions, the three horizontal strips and the
      two vertical strips. */
  const SurfaceGroups: seq<seq<int>> := [[9], [1, 3, 5, 7], [8, 10, 11], [2, 6]]

  // ---------------------------------------------------------------------------
  // Set operations
  // ---------------------------------------------------------------------------

  /** `list(set(s))`: each value once. CPython orders a set of small integers
      by hash bucket; the model keeps first occurrences instead, and only
      order-free facts are stated about it. */
  function Unique(s: seq<int>): (r: seq<int>)
    ensures Distinct(r)
    ensures forall x :: x in r <==> x in s
  {
    if s == [] then []
    else
      var last := s[|s| - 1];
      var init := Unique(s[..|s| - 1]);
      assert s == s[..|s| - 1] + [last];
      if last in init then init
      else
        DistinctSnoc(init, last);
        init + [last]
  }

  /** `list(set(a) & set(b))`: each common value once. */
  function Intersection(a: seq<int>, b: seq<int>): (r: seq<int>)
    ensures Distinct(r)
    ensures forall x :: x in r <==> x in a && x in b
  {
    Unique(Filter(a, In(b)))
  }

  /** `list(set(a) - set(b))`: each value of `a` missing from `b` once. */
  function Difference(a: seq<int>, b: seq<int>): (r: seq<int>)
    ensures Distinct(r)
    ensures forall x :: x in r <==> x in a && x !in b
  {
    Unique(Filter(a, NotIn(b)))
  }

  // ---------------------------------------------------------------------------
  // Counting
  // ---------------------------------------------------------------------------

  function OccursOnce(s: seq<int>): int -> bool {
    x => multiset(s)[x] == 1
  }

  /** `sorted([key for key, value in Counter(s).items() if value == 1])`. */
  function Singletons(s: seq<int>): seq<int> {
    Sort(Filter(s, OccursOnce(s)))
  }

  /** The values occurring exactly once, each once, in strictly ascending
      order. */
  lemma SingletonsSpec(s: seq<int>)
    ensures StrictlyAscending(Singletons(s))
    ensures forall x :: x in Singletons(s) <==> multiset(s)[x] == 1
  {
    var f := Filter(s, OccursOnce(s));
    FilterCount(s, OccursOnce(s));
    SortSpec(f);
    AscendingOnceIsStrict(Sort(f));
    forall x ensures x in Singletons(s) <==> multiset(s)[x] == 1 {
      assert x in Sort(f) <==> x in multiset(Sort(f));
      assert x in f <==> x in multiset(f);
    }
  }

  // ---------------------------------------------------------------------------
  // The PML regions
  // ---------------------------------------------------------------------------

  /** `get_pml_boundary`: the unoriented boundary's curve tags, sorted. */
  function PmlBoundary(b: seq<DimTag>): seq<int> {
    Sort(Tags(b))
  }

  lemma PmlBoundarySpec(b: seq<DimTag>)
    ensures Ascending(PmlBoundary(b))
    ensures multiset(PmlBoundary(b)) == multiset(Tags(b))
  {
    SortSpec(Tags(b));
  }

  /** The boundaries gmsh reports for the nine PML regions: the corners
      a, b, c, d (surfaces 1, 3, 5, 7) and the strips i, ii, iii, iv, v
      (surfaces 2, 10, 11, 6, 8). */
  datatype PmlRegions = PmlRegions(
    a: seq<DimTag>, b: seq<DimTag>, c: seq<DimTag>, d: seq<DimTag>,
    i: seq<DimTag>, ii: seq<DimTag>, iii: seq<DimTag>, iv: seq<DimTag>, v: seq<DimTag>)

  /** `pml_xy`, `pml_x`, `pml_y`. */
  function PmlXy(g: PmlRegions): seq<int> {
    PmlBoundary(g.a) + PmlBoundary(g.b) + PmlBoundary(g.c) + PmlBoundary(g.d)
  }

  function PmlX(g: PmlRegions): seq<int> {
    PmlBoundary(g.ii) + PmlBoundary(g.iii) + PmlBoundary(g.v)
  }

  function PmlY(g: PmlRegions): seq<int> {
    PmlBoundary(g.i) + PmlBoundary(g.iv)
  }

  /** `pml_list`. */
  function PmlList(g: PmlRegions): seq<int> {
    PmlXy(g) + PmlX(g) + PmlY(g)
  }

  /** `pml_list` holds every curve of the nine region boundaries, as often
      as the boundaries list it. */
  lemma PmlListSpec(g: PmlRegions)
    ensures |PmlList(g)| == |g.a| + |g.b| + |g.c| + |g.d| + |g.i| + |g.ii| + |g.iii| + |g.iv| + |g.v|
    ensures multiset(PmlList(g)) ==
      multiset(Tags(g.a)) + multiset(Tags(g.b)) + multiset(Tags(g.c)) + multiset(Tags(g.d)) +
      multiset(Tags(g.ii)) + multiset(Tags(g.iii)) + multiset(Tags(g.v)) +
      multiset(Tags(g.i)) + multiset(Tags(g.iv))
  {
    PmlBoundarySpec(g.a);
    PmlBoundarySpec(g.b);
    PmlBoundarySpec(g.c);
    PmlBoundarySpec(g.d);
    PmlBoundarySpec(g.i);
    PmlBoundarySpec(g.ii);
    PmlBoundarySpec(g.iii);
    PmlBoundarySpec(g.iv);
    PmlBoundarySpec(g.v);
  }

  // ---------------------------------------------------------------------------
  // The script
  // ---------------------------------------------------------------------------

  /** The lists the script computes and the physical groups it registers. */
  datatype Classification = Classification(
    scatterer: seq<int>,
    freeSpace: seq<int>,
    pmlList: seq<int>,
    cutLines: seq<int>,
    pmlOuter: seq<int>,
    curves: Registration,
    surfaces: Registration)

  /** `cut_line_pml + cut_line_fs`. */
  function CutLines(lineTags: seq<int>, g: PmlRegions, scatterer: seq<int>): seq<int> {
    Intersection(PmlBoundary(g.ii), PmlBoundary(g.iii)) +
    Difference(Difference(lineTags, PmlList(g)), scatterer)
  }

  /** The script from the oriented boundary of the free-space region, the
      curve entities of the model and the nine PML region boundaries. */
  function Classify(boundaryFs: seq<DimTag>, lines: seq<DimTag>, g: PmlRegions): Classification {
    var scatterer := NegatedNegatives(boundaryFs);
    var freeSpace := Positives(boundaryFs);
    var pmlList := PmlList(g);
    var cutLines := CutLines(Tags(lines), g, scatterer);
    var pmlOuter := Singletons(pmlList + freeSpace);
    Classification(
      scatterer, freeSpace, pmlList, cutLines, pmlOuter,
      Register(1, [scatterer, freeSpace, pmlOuter, cutLines], Boundary),
      Register(2, SurfaceGroups, Material))
  }

  /** The two sign splits of the free-space boundary. */
  lemma ClassifySplit(boundaryFs: seq<DimTag>, lines: seq<DimTag>, g: PmlRegions)
    ensures var c := Classify(boundaryFs, lines, g);
      && KeepsNegatedNegatives(c.scatterer, boundaryFs)
      && KeepsPositives(c.freeSpace, boundaryFs)
      && (forall x :: x in c.scatterer <==> x > 0 && -x in Tags(boundaryFs))
      && (forall x :: x in c.freeSpace <==> x > 0 && x in Tags(boundaryFs))
      && |c.scatterer| + |c.freeSpace| <= |boundaryFs|
  {
    SignSplit(boundaryFs);
  }

  /** The cut lines: each listed once, the shared curves of strips ii and
      iii followed by the model curves that bound neither a PML region nor
      the scatterer. */
  lemma ClassifyCutLines(boundaryFs: seq<DimTag>, lines: seq<DimTag>, g: PmlRegions)
    ensures var c := Classify(boundaryFs, lines, g);
      && Distinct(c.cutLines)
      && forall x :: x in c.cutLines <==>
        (x in Tags(g.ii) && x in Tags(g.iii)) ||
        (x in Tags(lines) && x !in c.pmlList && x !in c.scatterer)
  {
    var c := Classify(boundaryFs, lines, g);
    var pml := Intersection(PmlBoundary(g.ii), PmlBoundary(g.iii));
    var fs := Difference(Difference(Tags(lines), c.pmlList), c.scatterer);
    PmlBoundaryMembers(g.ii);
    PmlBoundaryMembers(g.iii);
    forall x | x in pml ensures x in c.pmlList {
      assert x in PmlX(g);
    }
    DistinctConcat(pml, fs);
  }

  /** A sorted boundary has the boundary's curves. */
  lemma PmlBoundaryMembers(b: seq<DimTag>)
    ensures forall x :: x in PmlBoundary(b) <==> x in Tags(b)
  {
    SortMembers(Tags(b));
  }

  /** Two duplicate-free lists with no common value concatenate to a
      duplicate-free list. */
  lemma DistinctConcat(a: seq<int>, b: seq<int>)
    requires Distinct(a) && Distinct(b)
    requires forall x :: x in a ==> x !in b
    ensures Distinct(a + b)
  {
    var t := a + b;
    forall i, j | 0 <= i < j < |t| ensures t[i] != t[j] {
      if j < |a| {
        assert t[i] == a[i] && t[j] == a[j];
      } else if i < |a| {
        assert t[i] == a[i] && t[j] == b[j - |a|];
        assert a[i] in a;
      } else {
        assert t[i] == b[i - |a|] && t[j] == b[j - |a|];
      }
    }
  }

  /** The outer PML contour: the curves met exactly once along the PML
      boundaries and the free-space curves, each once, ascending. */
  lemma ClassifyOuter(boundaryFs: seq<DimTag>, lines: seq<DimTag>, g: PmlRegions)
    ensures var c := Classify(boundaryFs, lines, g);
      && StrictlyAscending(c.pmlOuter)
      && forall x :: x in c.pmlOuter <==> multiset(c.pmlList + c.freeSpace)[x] == 1
  {
    var c := Classify(boundaryFs, lines, g);
    SingletonsSpec(c.pmlList + c.freeSpace);
  }

  /** The four curve lists are registered under 101 to 104, in order,
      without running off the `BOUNDARY` table. */
  lemma CurveRegistration(scatterer: seq<int>, freeSpace: seq<int>, pmlOuter: seq<int>, cutLines: seq<int>)
    ensures Register(1, [scatterer, freeSpace, pmlOuter, cutLines], Boundary) == Registration([
      PhysicalGroup(1, scatterer, 101, "circular_scatterer"),
      PhysicalGroup(1, freeSpace, 102, "free_space"),
      PhysicalGroup(1, pmlOuter, 103, "outer_pml"),
      PhysicalGroup(1, cutLines, 104, "horizontal_cut_line")], false)
  {
    var r := Register(1, [scatterer, freeSpace, pmlOuter, cutLines], Boundary);
    assert |r.calls| == 4;
  }

  /** The four surface lists are registered under 201 to 204, in order,
      without running off the `MATERIAL` table. */
  lemma SurfaceRegistration()
    ensures Register(2, SurfaceGroups, Material) == Registration([
      PhysicalGroup(2, [9], 201, "free_space"),
      PhysicalGroup(2, [1, 3, 5, 7], 202, "pml_xy"),
      PhysicalGroup(2, [8, 10, 11], 203, "pml_x"),
      PhysicalGroup(2, [2, 6], 204, "pml_y")], false)
  {
    var r := Register(2, SurfaceGroups, Material);
    assert |r.calls| == 4;
  }

  /** Both registrations of the script. */
  lemma ClassifyRegistration(boundaryFs: seq<DimTag>, lines: seq<DimTag>, g: PmlRegions)
    ensures var c := Classify(boundaryFs, lines, g);
      && c.curves == Registration([
        PhysicalGroup(1, c.scatterer, 101, "circular_scatterer"),
        PhysicalGroup(1, c.freeSpace, 102, "free_space"),
        PhysicalGroup(1, c.pmlOuter, 103, "outer_pml"),
        PhysicalGroup(1, c.cutLines, 104, "horizontal_cut_line")], false)
      && c.surfaces == Register(2, SurfaceGroups, Material)
  {
    var c := Classify(boundaryFs, lines, g);
    CurveRegistration(c.scatterer, c.freeSpace, c.pmlOuter, c.cutLines);
  }
}
