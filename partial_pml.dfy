/** The physical groups of the vectorial circular scatterer with a partial
    PML made of nine regions
    (p43_vectorial_circular_pec_scatterer_pml/pre_processing/domain_partial_pml.py):
    the oriented boundary of the free-space region is split into the
    scatterer and the free-space contour, and each of the nine surfaces gets
    its own material group. */
module PartialPml {
  import opened BoundaryTags

  /** The script's `BOUNDARY` table (tags and names). */
  const Boundary: seq<GroupConfig> := [
    GroupConfig(101, "circular_scatterer"),
    GroupConfig(102, "inner_pml")
  ]

  /** The script's `MATERIAL` table (tags and names). */
  const Material: seq<GroupConfig> := [
    GroupConfig(201, "free_space"),
    GroupConfig(301, "PML_a"),
    GroupConfig(302, "PML_b"),
    GroupConfig(303, "PML_c"),
    GroupConfig(304, "PML_d"),
    GroupConfig(401, "PML_I"),
    GroupConfig(402, "PML_II"),
    GroupConfig(403, "PML_III"),
    GroupConfig(404, "PML_IV")
  ]

  /** The surface tags of the nine regions, as gmsh's geometry kernel
      numbered them. */
  datatype Regions = Regions(fs: int, a: int, b: int, c: int, d: int, i: int, ii: int, iii: int, iv: int)

  /** `TagList_surfaces`. */
  function SurfaceList(r: Regions): seq<int> {
    [r.fs, r.a, r.b, r.c, r.d, r.i, r.ii, r.iii, r.iv]
  }

  /** The lists the script computes and the physical groups it registers. */
  datatype Groups = Groups(
    scatterer: seq<int>,
    freeSpace: seq<int>,
    curves: Registration,
    surfaces: Registration)

  /** The surface loop for any list of surfaces, each surface a group of its
      own; it runs off the `MATERIAL` table when given more surfaces than the
      table has entries. */
  function RegisterSurfaces(surfaces: seq<int>): Registration {
    Register(2, seq(|surfaces|, k requires 0 <= k < |surfaces| => [surfaces[k]]), Material)
  }

  /** The script from the oriented boundary of the free-space region and the
      nine region tags. */
  function Classify(boundaryFs: seq<DimTag>, regions: Regions): Groups {
    var scatterer := NegatedNegatives(boundaryFs);
    var freeSpace := Positives(boundaryFs);
    Groups(
      scatterer, freeSpace,
      Register(1, [scatterer, freeSpace], Boundary),
      RegisterSurfaces(SurfaceList(regions)))
  }

  /** The two lists keep their curves in order, hold only positive tags and
      together are no longer than the boundary. */
  lemma ClassifySplits(boundaryFs: seq<DimTag>, regions: Regions)
    ensures var c := Classify(boundaryFs, regions);
      && KeepsNegatedNegatives(c.scatterer, boundaryFs)
      && KeepsPositives(c.freeSpace, boundaryFs)
      && (forall x :: x in c.scatterer ==> x > 0)
      && (forall x :: x in c.freeSpace ==> x > 0)
      && |c.scatterer| + |c.freeSpace| <= |boundaryFs|
  {
    SignSplit(boundaryFs);
  }

  /** The k-th surface goes alone into the group with the k-th `MATERIAL`
      tag; the loop fails exactly when there are more surfaces than table
      entries. */
  lemma SurfacesSpec(surfaces: seq<int>)
    ensures RegisterSurfaces(surfaces).failed <==> |surfaces| > |Material|
    ensures var r := RegisterSurfaces(surfaces);
      forall k :: 0 <= k < |r.calls| ==>
        r.calls[k] == PhysicalGroup(2, [surfaces[k]], Material[k].tag, Material[k].name)
  {
  }

  /** The script's registrations: the scatterer under 101, the free-space
      contour under 102, and its nine surfaces under 201, 301 to 304 and 401
      to 404, in their order. */
  lemma ClassifyRegistration(boundaryFs: seq<DimTag>, regions: Regions)
    ensures var c := Classify(boundaryFs, regions);
      && c.curves == Registration([
        PhysicalGroup(1, c.scatterer, 101, "circular_scatterer"),
        PhysicalGroup(1, c.freeSpace, 102, "inner_pml")], false)
      && !c.surfaces.failed
      && c.surfaces.calls == [
        PhysicalGroup(2, [regions.fs], 201, "free_space"),
        PhysicalGroup(2, [regions.a], 301, "PML_a"),
        PhysicalGroup(2, [regions.b], 302, "PML_b"),
        PhysicalGroup(2, [regions.c], 303, "PML_c"),
        PhysicalGroup(2, [regions.d], 304, "PML_d"),
        PhysicalGroup(2, [regions.i], 401, "PML_I"),
        PhysicalGroup(2, [regions.ii], 402, "PML_II"),
        PhysicalGroup(2, [regions.iii], 403, "PML_III"),
        PhysicalGroup(2, [regions.iv], 404, "PML_IV")]
  {
    var c := Classify(boundaryFs, regions);
    assert |c.curves.calls| == 2;
    SurfacesSpec(SurfaceList(regions));
    assert |c.surfaces.calls| == 9;
  }
}
