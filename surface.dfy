/** `get_Surface_Potentials`: the potentials of the top row of mesh cells, taken
    relative to a far reference cell for the two surveys whose source is a pole.
    The potential array `phi` of the field object and the reference cell index
    found by `closestPoints` are parameters. */
module SurfacePotentials {
  import opened Geometry
  import opened Arrays

  /** `np.max` of the cell-centre heights. */
  function MaxZ(cs: seq<Point>): (m: real)
    requires |cs| > 0
    ensures forall i :: 0 <= i < |cs| ==> cs[i].z <= m
    ensures exists i :: 0 <= i < |cs| && cs[i].z == m
  {
    if |cs| == 1 then cs[0].z
    else
      var rest := MaxZ(cs[..|cs| - 1]);
      assert forall i :: 0 <= i < |cs| - 1 ==> cs[..|cs| - 1][i] == cs[i];
      if cs[|cs| - 1].z > rest then cs[|cs| - 1].z else rest
  }

  /** The mask `CCLoc[:, 1] == zsurfaceLoc`. */
  function TopMask(cs: seq<Point>): (mask: seq<bool>)
    requires |cs| > 0
    ensures |mask| == |cs|
  {
    seq(|cs|, i requires 0 <= i < |cs| => cs[i].z == MaxZ(cs))
  }

  /** `surfaceInd`: exactly the cells, in increasing order, whose centre lies at the top height. */
  function SurfaceCells(cs: seq<Point>): (idx: seq<nat>)
    requires |cs| > 0
    ensures |idx| > 0
    ensures forall k :: 0 <= k < |idx| ==> idx[k] < |cs| && cs[idx[k]].z == MaxZ(cs)
    ensures forall i :: 0 <= i < |cs| && cs[i].z == MaxZ(cs) ==> i in idx
    ensures forall j, k :: 0 <= j < k < |idx| ==> idx[j] < idx[k]
  {
    var mask := TopMask(cs);
    var top :| 0 <= top < |cs| && cs[top].z == MaxZ(cs);
    assert mask[top];
    Where(mask)
  }

  /** The surveys whose potentials are re-referenced. */
  predicate IsPoleSurvey(survey: string)
  {
    survey == "Pole-Dipole" || survey == "Pole-Pole"
  }

  /** The triple `(xSurface, phiSurface, phiScale)`. */
  datatype Profile = Profile(xSurface: seq<real>, phiSurface: seq<real>, phiScale: real)

  /** `get_Surface_Potentials` on the potential array `phi` of the chosen source. */
  function GetSurfacePotentials(survey: string, phi: seq<real>, centers: seq<Point>, refInd: nat): (p: Profile)
    requires |centers| > 0 && |phi| == |centers| && refInd < |phi|
    ensures var idx := SurfaceCells(centers);
      && |p.xSurface| == |idx| && |p.phiSurface| == |idx|
      && (forall k :: 0 <= k < |idx| ==> p.xSurface[k] == centers[idx[k]].x)
      && (forall k :: 0 <= k < |idx| ==> p.phiSurface[k] + p.phiScale == phi[idx[k]])
    ensures p.phiScale == if IsPoleSurvey(survey) then phi[refInd] else 0.0
  {
    var idx := SurfaceCells(centers);
    var xSurface := seq(|idx|, k requires 0 <= k < |idx| => centers[idx[k]].x);
    var phiSurface := Pick(phi, idx);
    if IsPoleSurvey(survey) then
      Profile(xSurface, seq(|phiSurface|, k requires 0 <= k < |phiSurface| => phiSurface[k] - phi[refInd]), phi[refInd])
    else
      Profile(xSurface, phiSurface, 0.0)
  }

  /** For the dipole-source surveys the surface values are the raw potentials. */
  lemma DipoleSurveysRaw(survey: string, phi: seq<real>, centers: seq<Point>, refInd: nat)
    requires |centers| > 0 && |phi| == |centers| && refInd < |phi|
    requires !IsPoleSurvey(survey)
    ensures GetSurfacePotentials(survey, phi, centers, refInd).phiSurface == Pick(phi, SurfaceCells(centers))
  {
    var p := GetSurfacePotentials(survey, phi, centers, refInd);
    var raw := Pick(phi, SurfaceCells(centers));
    assert forall k :: 0 <= k < |raw| ==> p.phiSurface[k] == raw[k];
  }

  /** For the pole-source surveys a reference cell on the surface reads zero. */
  lemma ReferenceReadsZero(survey: string, phi: seq<real>, centers: seq<Point>, refInd: nat, k: nat)
    requires |centers| > 0 && |phi| == |centers| && refInd < |phi|
    requires IsPoleSurvey(survey)
    requires k < |SurfaceCells(centers)| && SurfaceCells(centers)[k] == refInd
    ensures GetSurfacePotentials(survey, phi, centers, refInd).phiSurface[k] == 0.0
  {
  }

  /** Potential differences between surface cells do not depend on the survey. */
  lemma DifferencesIndependentOfSurvey(s1: string, s2: string, phi: seq<real>, centers: seq<Point>, refInd: nat, j: nat, k: nat)
    requires |centers| > 0 && |phi| == |centers| && refInd < |phi|
    requires j < |SurfaceCells(centers)| && k < |SurfaceCells(centers)|
    ensures var p, q := GetSurfacePotentials(s1, phi, centers, refInd), GetSurfacePotentials(s2, phi, centers, refInd);
      p.phiSurface[j] - p.phiSurface[k] == q.phiSurface[j] - q.phiSurface[k]
  {
  }

  /** Adding a constant to every potential (a change of ground) leaves the pole-survey
      profile unchanged: re-referencing removes the arbitrary offset. */
  lemma PoleProfileIgnoresOffset(survey: string, phi: seq<real>, c: real, centers: seq<Point>, refInd: nat)
    requires |centers| > 0 && |phi| == |centers| && refInd < |phi|
    requires IsPoleSurvey(survey)
    ensures var shifted := seq(|phi|, i requires 0 <= i < |phi| => phi[i] + c);
      GetSurfacePotentials(survey, shifted, centers, refInd).phiSurface
        == GetSurfacePotentials(survey, phi, centers, refInd).phiSurface
  {
    var shifted := seq(|phi|, i requires 0 <= i < |phi| => phi[i] + c);
    var p := GetSurfacePotentials(survey, shifted, centers, refInd);
    var q := GetSurfacePotentials(survey, phi, centers, refInd);
    var idx := SurfaceCells(centers);
    assert forall k :: 0 <= k < |idx| ==> p.phiSurface[k] == q.phiSurface[k];
  }
}
