/** `sumCylinderCharges`: the secondary charges captured by a circle of radius
    r + 0.5 around the cylinder, split by sign, summed, and averaged into a
    charge-weighted centre for each sign. */
module Charges {
  import opened Geometry
  import opened Arrays

  /** The capture outline: the cylinder outline at radius `r + 0.5`, closed with the
      codes `codes[0] = MOVETO`, `codes[-1] = CLOSEPOLY`, `LINETO` elsewhere. */
  function CaptureRegion(xc: real, zc: real, r: real, cos: real -> real, sin: real -> real): (p: Path)
    ensures p.verts == CylinderPoints(xc, zc, r + 0.5, cos, sin)
    ensures IsClosedPath(p) && p == CylinderPath(xc, zc, r + 0.5, cos, sin)
  {
    CodeConventionsAgree(OutlineVertices);
    Path(CylinderPoints(xc, zc, r + 0.5, cos, sin), ChargeRegionCodes(OutlineVertices))
  }

  /** `chargeRegionInsideInd`: the cells whose centre the polygon test places inside. */
  function CapturedCells(centers: seq<Point>, region: Path, inside: (Path, Point) -> bool): (idx: seq<nat>)
    ensures forall k :: 0 <= k < |idx| ==> idx[k] < |centers| && inside(region, centers[idx[k]])
    ensures forall i :: 0 <= i < |centers| && inside(region, centers[i]) ==> i in idx
    ensures forall j, k :: 0 <= j < k < |idx| ==> idx[j] < idx[k]
  {
    Where(seq(|centers|, i requires 0 <= i < |centers| => inside(region, centers[i])))
  }

  /** `plateCharge >= 0`. */
  function PosMask(c: seq<real>): (m: seq<bool>)
    ensures |m| == |c|
  {
    seq(|c|, k requires 0 <= k < |c| => c[k] >= 0.0)
  }

  /** `plateCharge < 0`. */
  function NegMask(c: seq<real>): (m: seq<bool>)
    ensures |m| == |c|
  {
    seq(|c|, k requires 0 <= k < |c| => c[k] < 0.0)
  }

  /** On reals `< 0` is the complement of `>= 0`. */
  lemma NegMaskIsComplement(c: seq<real>)
    ensures NegMask(c) == Negate(PosMask(c))
  {
  }

  /** The captured charges and their locations, split by sign. */
  datatype Groups = Groups(qPos: seq<real>, qNeg: seq<real>, posLocs: seq<Point>, negLocs: seq<Point>)

  /** The two groups of the charges `c` captured at `locs`, each charge with its location. */
  function SplitBySign(c: seq<real>, locs: seq<Point>): (g: Groups)
    requires |c| == |locs|
    ensures |g.qPos| == |g.posLocs| && |g.qNeg| == |g.negLocs|
    ensures forall k :: 0 <= k < |g.qPos| ==> g.qPos[k] >= 0.0
    ensures forall k :: 0 <= k < |g.qNeg| ==> g.qNeg[k] < 0.0
    ensures var posInd := Where(PosMask(c));
      && |g.qPos| == |posInd|
      && forall k :: 0 <= k < |posInd| ==> g.qPos[k] == c[posInd[k]] && g.posLocs[k] == locs[posInd[k]]
    ensures var negInd := Where(NegMask(c));
      && |g.qNeg| == |negInd|
      && forall k :: 0 <= k < |negInd| ==> g.qNeg[k] == c[negInd[k]] && g.negLocs[k] == locs[negInd[k]]
  {
    var posInd, negInd := Where(PosMask(c)), Where(NegMask(c));
    Groups(Pick(c, posInd), Pick(c, negInd), Pick(locs, posInd), Pick(locs, negInd))
  }

  /** Every captured charge goes into exactly one group, so the counts and the sums add up. */
  lemma SplitCoversAll(c: seq<real>, locs: seq<Point>)
    requires |c| == |locs|
    ensures var g := SplitBySign(c, locs);
      |g.qPos| + |g.qNeg| == |c| && Sum(g.qPos) + Sum(g.qNeg) == Sum(c)
  {
    NegMaskIsComplement(c);
    WhereCountsPartition(PosMask(c));
    SumOverPartition(c, PosMask(c));
  }

  /** The groups `sumCylinderCharges` forms from the per-cell charges `qSecondary`. */
  function CapturedGroups(xc: real, zc: real, r: real, qSecondary: seq<real>, centers: seq<Point>,
                          cos: real -> real, sin: real -> real, inside: (Path, Point) -> bool): Groups
    requires |qSecondary| == |centers|
  {
    var idx := CapturedCells(centers, CaptureRegion(xc, zc, r, cos, sin), inside);
    SplitBySign(Pick(qSecondary, idx), Pick(centers, idx))
  }

  /** The total captured charge, `np.sum(qSecondary[chargeRegionInsideInd])`. */
  function CapturedTotal(xc: real, zc: real, r: real, qSecondary: seq<real>, centers: seq<Point>,
                         cos: real -> real, sin: real -> real, inside: (Path, Point) -> bool): real
    requires |qSecondary| == |centers|
  {
    Sum(Pick(qSecondary, CapturedCells(centers, CaptureRegion(xc, zc, r, cos, sin), inside)))
  }

  /** `sum(w[i] * v[i])`: the numerator of a weighted average. */
  function WeightedSum(w: seq<real>, v: seq<real>): real
    requires |w| == |v|
  {
    if |w| == 0 then 0.0 else WeightedSum(w[..|w| - 1], v[..|v| - 1]) + w[|w| - 1] * v[|v| - 1]
  }

  function Xs(ps: seq<Point>): (xs: seq<real>)
    ensures |xs| == |ps| && forall i :: 0 <= i < |ps| ==> xs[i] == ps[i].x
  {
    seq(|ps|, i requires 0 <= i < |ps| => ps[i].x)
  }

  function Zs(ps: seq<Point>): (zs: seq<real>)
    ensures |zs| == |ps| && forall i :: 0 <= i < |ps| ==> zs[i] == ps[i].z
  {
    seq(|ps|, i requires 0 <= i < |ps| => ps[i].z)
  }

  /** `np.average(locs, axis=0, weights=w)`. */
  function Centroid(w: seq<real>, locs: seq<Point>): (c: Point)
    requires |w| == |locs| && Sum(w) != 0.0
    ensures c.x * Sum(w) == WeightedSum(w, Xs(locs))
    ensures c.z * Sum(w) == WeightedSum(w, Zs(locs))
  {
    Point(WeightedSum(w, Xs(locs)) / Sum(w), WeightedSum(w, Zs(locs)) / Sum(w))
  }

  /** numpy raises when the weights of an average sum to zero; that happens only
      when both groups are non-empty and every captured non-negative charge is zero. */
  predicate WeightsUsable(g: Groups)
  {
    |g.qNeg| == 0 || |g.qPos| == 0 || Sum(g.qPos) != 0.0
  }

  const PosFallback := Point(10.0, -10.0)
  const NegFallback := Point(-10.0, -10.0)

  /** The tuple `(qPosSum, qNegSum, qPosAvgLoc, qNegAvgLoc)`. */
  datatype ChargeSummary = ChargeSummary(qPosSum: real, qNegSum: real, qPosAvgLoc: Point, qNegAvgLoc: Point)

  /** The sums and centres of two sign groups: the fixed fallbacks when either group is empty. */
  function Summarize(g: Groups): (s: ChargeSummary)
    requires |g.qPos| == |g.posLocs| && |g.qNeg| == |g.negLocs|
    requires forall k :: 0 <= k < |g.qPos| ==> g.qPos[k] >= 0.0
    requires forall k :: 0 <= k < |g.qNeg| ==> g.qNeg[k] < 0.0
    requires WeightsUsable(g)
    ensures s.qPosSum == Sum(g.qPos) && s.qNegSum == Sum(g.qNeg)
    ensures s.qPosSum >= 0.0 && s.qNegSum <= 0.0
    ensures |g.qPos| == 0 || |g.qNeg| == 0 ==> s.qPosAvgLoc == PosFallback && s.qNegAvgLoc == NegFallback
    ensures |g.qPos| > 0 && |g.qNeg| > 0 ==>
      && s.qNegSum < 0.0 && s.qPosSum > 0.0
      && s.qPosAvgLoc == Centroid(g.qPos, g.posLocs) && s.qNegAvgLoc == Centroid(g.qNeg, g.negLocs)
  {
    SumNonNegative(g.qPos);
    SumNonPositive(g.qNeg);
    if |g.qNeg| == 0 || |g.qPos| == 0 then
      ChargeSummary(Sum(g.qPos), Sum(g.qNeg), PosFallback, NegFallback)
    else
      SumNegative(g.qNeg);
      ChargeSummary(Sum(g.qPos), Sum(g.qNeg), Centroid(g.qPos, g.posLocs), Centroid(g.qNeg, g.negLocs))
  }

  /** `sumCylinderCharges` on the per-cell charges `qSecondary` over the cell centres. */
  function SumCylinderCharges(xc: real, zc: real, r: real, qSecondary: seq<real>, centers: seq<Point>,
                              cos: real -> real, sin: real -> real, inside: (Path, Point) -> bool): (s: ChargeSummary)
    requires |qSecondary| == |centers|
    requires WeightsUsable(CapturedGroups(xc, zc, r, qSecondary, centers, cos, sin, inside))
    ensures s == Summarize(CapturedGroups(xc, zc, r, qSecondary, centers, cos, sin, inside))
    ensures s.qPosSum + s.qNegSum == CapturedTotal(xc, zc, r, qSecondary, centers, cos, sin, inside)
  {
    var idx := CapturedCells(centers, CaptureRegion(xc, zc, r, cos, sin), inside);
    SplitCoversAll(Pick(qSecondary, idx), Pick(centers, idx));
    Summarize(CapturedGroups(xc, zc, r, qSecondary, centers, cos, sin, inside))
  }

  /** Every captured charge lies in exactly one group: the non-negative indices and
      the negative indices are disjoint and together cover all captured charges. */
  lemma ExactlyOneGroup(c: seq<real>, k: nat)
    requires k < |c|
    ensures k in Where(PosMask(c)) <==> c[k] >= 0.0
    ensures k in Where(NegMask(c)) <==> c[k] < 0.0
  {
    if k in Where(PosMask(c)) {
      var j :| 0 <= j < |Where(PosMask(c))| && Where(PosMask(c))[j] == k;
    }
    if k in Where(NegMask(c)) {
      var j :| 0 <= j < |Where(NegMask(c))| && Where(NegMask(c))[j] == k;
    }
  }

  /** With non-negative weights, a weighted sum of values in [lo, hi] lies between
      lo and hi times the total weight. */
  lemma {:induction false} WeightedSumBounds(w: seq<real>, v: seq<real>, lo: real, hi: real)
    requires |w| == |v|
    requires forall i :: 0 <= i < |v| ==> lo <= v[i] <= hi
    requires forall i :: 0 <= i < |w| ==> w[i] >= 0.0
    ensures lo * Sum(w) <= WeightedSum(w, v) <= hi * Sum(w)
  {
    if |w| > 0 {
      var n := |w| - 1;
      var s, t := Sum(w[..n]), WeightedSum(w[..n], v[..n]);
      assert lo * s <= t <= hi * s by {
        WeightedSumBounds(w[..n], v[..n], lo, hi);
      }
      StepBounds(s, t, w[n], v[n], lo, hi);
    }
  }

  /** One more term keeps the bounds of `WeightedSumBounds`. */
  lemma StepBounds(s: real, t: real, w: real, v: real, lo: real, hi: real)
    requires lo * s <= t <= hi * s
    requires w >= 0.0 && lo <= v <= hi
    ensures lo * (s + w) <= t + w * v <= hi * (s + w)
  {
    assert lo * w <= w * v <= hi * w;
  }

  /** Negating every weight negates the sum and the weighted sum. */
  lemma {:induction false} NegatedWeights(w: seq<real>, v: seq<real>)
    requires |w| == |v|
    ensures var nw := seq(|w|, i requires 0 <= i < |w| => -w[i]);
      Sum(nw) == -Sum(w) && WeightedSum(nw, v) == -WeightedSum(w, v)
  {
    var nw := seq(|w|, i requires 0 <= i < |w| => -w[i]);
    if |w| > 0 {
      var n := |w| - 1;
      assert nw[..n] == seq(n, i requires 0 <= i < n => -w[..n][i]);
      NegatedWeights(w[..n], v[..n]);
      assert (-w[n]) * v[n] == -(w[n] * v[n]);
    }
  }

  /** A weighted average with weights of one sign and non-zero total `s` lies within
      the range of the averaged values (`t` is the weighted sum). */
  lemma AverageWithinRange(w: seq<real>, v: seq<real>, lo: real, hi: real, s: real, t: real)
    requires |w| == |v| && s == Sum(w) && t == WeightedSum(w, v) && s != 0.0
    requires (forall i :: 0 <= i < |w| ==> w[i] >= 0.0) || (forall i :: 0 <= i < |w| ==> w[i] <= 0.0)
    requires forall i :: 0 <= i < |v| ==> lo <= v[i] <= hi
    ensures lo <= t / s <= hi
  {
    if forall i :: 0 <= i < |w| ==> w[i] >= 0.0 {
      NonNegativeAverageWithinRange(w, v, lo, hi, s, t);
    } else {
      var nw := seq(|w|, i requires 0 <= i < |w| => -w[i]);
      NegatedWeights(w, v);
      NonNegativeAverageWithinRange(nw, v, lo, hi, -s, -t);
      NegateRatio(t, s);
    }
  }

  lemma NonNegativeAverageWithinRange(w: seq<real>, v: seq<real>, lo: real, hi: real, s: real, t: real)
    requires |w| == |v| && s == Sum(w) && t == WeightedSum(w, v) && s != 0.0
    requires forall i :: 0 <= i < |w| ==> w[i] >= 0.0
    requires forall i :: 0 <= i < |v| ==> lo <= v[i] <= hi
    ensures lo <= t / s <= hi
  {
    WeightedSumBounds(w, v, lo, hi);
    SumNonNegative(w);
    DivideBounds(lo, hi, s, t);
  }

  lemma NegateRatio(t: real, s: real)
    requires s != 0.0
    ensures (-t) / (-s) == t / s
  {
  }

  lemma DivideBounds(lo: real, hi: real, s: real, t: real)
    requires s > 0.0 && lo * s <= t <= hi * s
    ensures lo <= t / s <= hi
  {
    assert t / s * s == t;
  }

  /** When both groups are non-empty, each charge-weighted centre lies within any box
      that holds the locations of its own group. */
  lemma CentroidsWithinGroups(xc: real, zc: real, r: real, qSecondary: seq<real>, centers: seq<Point>,
                              cos: real -> real, sin: real -> real, inside: (Path, Point) -> bool,
                              xlo: real, xhi: real, zlo: real, zhi: real)
    requires |qSecondary| == |centers|
    requires WeightsUsable(CapturedGroups(xc, zc, r, qSecondary, centers, cos, sin, inside))
    requires var g := CapturedGroups(xc, zc, r, qSecondary, centers, cos, sin, inside);
      |g.qPos| > 0 && |g.qNeg| > 0
      && (forall i :: 0 <= i < |g.posLocs| ==> xlo <= g.posLocs[i].x <= xhi && zlo <= g.posLocs[i].z <= zhi)
    ensures var s := SumCylinderCharges(xc, zc, r, qSecondary, centers, cos, sin, inside);
      xlo <= s.qPosAvgLoc.x <= xhi && zlo <= s.qPosAvgLoc.z <= zhi
  {
    var g := CapturedGroups(xc, zc, r, qSecondary, centers, cos, sin, inside);
    AverageWithinRange(g.qPos, Xs(g.posLocs), xlo, xhi, Sum(g.qPos), WeightedSum(g.qPos, Xs(g.posLocs)));
    AverageWithinRange(g.qPos, Zs(g.posLocs), zlo, zhi, Sum(g.qPos), WeightedSum(g.qPos, Zs(g.posLocs)));
  }

  /** The same for the negative group. */
  lemma NegativeCentroidWithinGroup(xc: real, zc: real, r: real, qSecondary: seq<real>, centers: seq<Point>,
                                    cos: real -> real, sin: real -> real, inside: (Path, Point) -> bool,
                                    xlo: real, xhi: real, zlo: real, zhi: real)
    requires |qSecondary| == |centers|
    requires WeightsUsable(CapturedGroups(xc, zc, r, qSecondary, centers, cos, sin, inside))
    requires var g := CapturedGroups(xc, zc, r, qSecondary, centers, cos, sin, inside);
      |g.qPos| > 0 && |g.qNeg| > 0
      && (forall i :: 0 <= i < |g.negLocs| ==> xlo <= g.negLocs[i].x <= xhi && zlo <= g.negLocs[i].z <= zhi)
    ensures var s := SumCylinderCharges(xc, zc, r, qSecondary, centers, cos, sin, inside);
      xlo <= s.qNegAvgLoc.x <= xhi && zlo <= s.qNegAvgLoc.z <= zhi
  {
    var g := CapturedGroups(xc, zc, r, qSecondary, centers, cos, sin, inside);
    SumNegative(g.qNeg);
    AverageWithinRange(g.qNeg, Xs(g.negLocs), xlo, xhi, Sum(g.qNeg), WeightedSum(g.qNeg, Xs(g.negLocs)));
    AverageWithinRange(g.qNeg, Zs(g.negLocs), zlo, zhi, Sum(g.qNeg), WeightedSum(g.qNeg, Zs(g.negLocs)));
  }

  /** When every captured charge is non-negative, the negative group is empty and both
      centres are the fixed fallbacks. */
  lemma AllNonNegativeFallsBack(xc: real, zc: real, r: real, qSecondary: seq<real>, centers: seq<Point>,
                                cos: real -> real, sin: real -> real, inside: (Path, Point) -> bool)
    requires |qSecondary| == |centers|
    requires forall i :: 0 <= i < |qSecondary| ==> qSecondary[i] >= 0.0
    ensures WeightsUsable(CapturedGroups(xc, zc, r, qSecondary, centers, cos, sin, inside))
    ensures var s := SumCylinderCharges(xc, zc, r, qSecondary, centers, cos, sin, inside);
      s.qPosAvgLoc == PosFallback && s.qNegAvgLoc == NegFallback && s.qNegSum == 0.0
  {
    var g := CapturedGroups(xc, zc, r, qSecondary, centers, cos, sin, inside);
    var idx := CapturedCells(centers, CaptureRegion(xc, zc, r, cos, sin), inside);
    var c := Pick(qSecondary, idx);
    assert forall k :: 0 <= k < |c| ==> !NegMask(c)[k];
    WhereNone(NegMask(c));
  }
}
