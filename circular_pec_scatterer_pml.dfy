/** The physical groups of the circular PEC scatterer in a PML ring
    (p33_circular_pec_scatterer_pml/pre_processing/domain.py): the oriented
    boundaries of the free-space and PML regions are split by orientation
    into the scatterer, the inner PML contour and the outer PML contour, and
    the curve lists and both regions' surfaces are paired with the script's
    physical-group tables. */
module CircularPecScattererPml {
  import opened BoundaryTags

  /** The script's `BOUNDARY` table (tags and names). */
  const Boundary: seq<GroupConfig> := [
    GroupConfig(101, "circular_scatterer"),
    GroupConfig(102, "inner_truncated_domain"),
    GroupConfig(103, "outer_truncated_domain")
  ]

  /** The script's `MATERIAL` table (tags and names). */
  const Material: seq<GroupConfig> := [
    GroupConfig(201, "PML"),
    GroupConfig(202, "free_space")
  ]

  /** The lists the script computes and the physical groups it registers. */
  datatype Groups = Groups(
    scatterer: seq<int>,
    pmlInner: seq<int>,
    pmlOuter: seq<int>,
    curves: Registration,
    surfaces: Registration)

  /** The script from the two surfaces' `(dim, tag)` lists gmsh returns when
      cutting the PML ring and the free-space region, and their oriented
      boundaries. */
  function Classify(pmlSurfaces: seq<DimTag>, fsSurfaces: seq<DimTag>,
                    boundaryPmlExt: seq<DimTag>, boundaryPmlInn: seq<DimTag>): Groups
  {
    var scatterer := NegatedNegatives(boundaryPmlInn);
    var pmlInner := Positives(boundaryPmlInn);
    var pmlOuter := Positives(boundaryPmlExt);
    Groups(
      scatterer, pmlInner, pmlOuter,
      Register(1, [scatterer, pmlInner, pmlOuter], Boundary),
      Register(2, [Tags(pmlSurfaces), Tags(fsSurfaces)], Material))
  }

  /** The three curve lists keep their curves in order, split the inner
      boundary without losing a curve unless its tag is 0, and take the
      outer contour from the positive part of the outer boundary. */
  lemma ClassifySplits(pmlSurfaces: seq<DimTag>, fsSurfaces: seq<DimTag>,
                       boundaryPmlExt: seq<DimTag>, boundaryPmlInn: seq<DimTag>)
    ensures var c := Classify(pmlSurfaces, fsSurfaces, boundaryPmlExt, boundaryPmlInn);
      && KeepsNegatedNegatives(c.scatterer, boundaryPmlInn)
      && KeepsPositives(c.pmlInner, boundaryPmlInn)
      && KeepsPositives(c.pmlOuter, boundaryPmlExt)
      && (forall x :: x in c.scatterer ==> x > 0)
      && |c.scatterer| + |c.pmlInner| <= |boundaryPmlInn|
      && (|c.scatterer| + |c.pmlInner| == |boundaryPmlInn| <==> 0 !in Tags(boundaryPmlInn))
  {
    SignSplit(boundaryPmlInn);
    SignSplit(boundaryPmlExt);
  }

  /** The curve lists go to 101, 102, 103 and the two regions' surface tags,
      in their order, to 201 'PML' and 202 'free_space'. */
  lemma ClassifyRegistration(pmlSurfaces: seq<DimTag>, fsSurfaces: seq<DimTag>,
                             boundaryPmlExt: seq<DimTag>, boundaryPmlInn: seq<DimTag>)
    ensures var c := Classify(pmlSurfaces, fsSurfaces, boundaryPmlExt, boundaryPmlInn);
      && c.curves == Registration([
        PhysicalGroup(1, c.scatterer, 101, "circular_scatterer"),
        PhysicalGroup(1, c.pmlInner, 102, "inner_truncated_domain"),
        PhysicalGroup(1, c.pmlOuter, 103, "outer_truncated_domain")], false)
      && c.surfaces == Registration([
        PhysicalGroup(2, Tags(pmlSurfaces), 201, "PML"),
        PhysicalGroup(2, Tags(fsSurfaces), 202, "free_space")], false)
  {
    var c := Classify(pmlSurfaces, fsSurfaces, boundaryPmlExt, boundaryPmlInn);
    assert |c.curves.calls| == 3;
    assert |c.surfaces.calls| == 2;
  }
}
