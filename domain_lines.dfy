/** The curve lists of the vectorial circular scatterer with a full PML ring
    (p43_vectorial_circular_pec_scatterer/pre_processing/domain_lines.py):
    the oriented boundary of the free-space region gives the scatterer and
    the inner PML contour, the oriented boundary of the PML region gives its
    outer contour, and every other curve of the model is an inner line. */
module DomainLines {
  import opened BoundaryTags

  /** The lists the script computes. */
  datatype CurveLists = CurveLists(
    scatterer: seq<int>,
    pmlInner: seq<int>,
    pmlOuter: seq<int>,
    boundaryList: seq<int>,
    innerLines: seq<int>)

  /** The script from the curve entities of the model and the oriented
      boundaries of the PML region and of the free-space region. */
  function Classify(lines: seq<DimTag>, boundaryPmlExt: seq<DimTag>, boundaryPmlInn: seq<DimTag>): CurveLists {
    var scatterer := NegatedNegatives(boundaryPmlInn);
    var pmlInner := Positives(boundaryPmlInn);
    var pmlOuter := Positives(boundaryPmlExt);
    var boundaryList := pmlInner + pmlOuter + scatterer;
    CurveLists(scatterer, pmlInner, pmlOuter, boundaryList, Filter(Tags(lines), NotIn(boundaryList)))
  }

  /** The scatterer is, in order, the negated negative part of the inner
      boundary, the two PML contours the positive parts of their boundaries,
      and the boundary list holds exactly the curves of the three. */
  lemma ClassifySplits(lines: seq<DimTag>, boundaryPmlExt: seq<DimTag>, boundaryPmlInn: seq<DimTag>)
    ensures var c := Classify(lines, boundaryPmlExt, boundaryPmlInn);
      && KeepsNegatedNegatives(c.scatterer, boundaryPmlInn)
      && KeepsPositives(c.pmlInner, boundaryPmlInn)
      && KeepsPositives(c.pmlOuter, boundaryPmlExt)
      && (forall x :: x in c.scatterer <==> x > 0 && -x in Tags(boundaryPmlInn))
      && (forall x :: x in c.pmlInner <==> x > 0 && x in Tags(boundaryPmlInn))
      && (forall x :: x in c.pmlOuter <==> x > 0 && x in Tags(boundaryPmlExt))
      && |c.boundaryList| == |c.pmlInner| + |c.pmlOuter| + |c.scatterer|
      && (forall x :: x in c.boundaryList <==> x in c.pmlInner || x in c.pmlOuter || x in c.scatterer)
  {
    SignSplit(boundaryPmlInn);
    SignSplit(boundaryPmlExt);
  }

  /** The inner lines are the curves of the model outside the boundary list,
      in the model's order: the k-th inner line is the curve at the k-th
      position whose curve is not on the boundary list. */
  lemma ClassifyInnerLines(lines: seq<DimTag>, boundaryPmlExt: seq<DimTag>, boundaryPmlInn: seq<DimTag>)
    ensures var c := Classify(lines, boundaryPmlExt, boundaryPmlInn);
      var kept := Positions(Tags(lines), NotIn(c.boundaryList));
      && (forall x :: x in c.innerLines <==> x in Tags(lines) && x !in c.boundaryList)
      && |c.innerLines| == |kept|
      && (forall k :: 0 <= k < |kept| ==> c.innerLines[k] == lines[kept[k]].tag)
      && (forall k, l :: 0 <= k < l < |kept| ==> kept[k] < kept[l])
  {
    var c := Classify(lines, boundaryPmlExt, boundaryPmlInn);
    FilterAt(Tags(lines), NotIn(c.boundaryList));
  }
}
