/** The earth-model builder: conductivity arrays over the mesh cells, a
    uniform half-space with a horizontal layer and a cylinder or plate
    painted onto it. Cell centres come from the mesh as `centers`; the
    polygon test of `Path.contains_points` is the parameter `inside`. */
module ModelBuilder {
  import opened Geometry

  /** `sig * np.ones([n])`. */
  function Uniform(n: nat, sig: real): (m: seq<real>)
    ensures |m| == n
  {
    seq(n, _ => sig)
  }

  /** `np.log(m)`, element by element, with `ln` standing for the logarithm. */
  function LogModel(ln: real -> real, m: seq<real>): (r: seq<real>)
    ensures |r| == |m|
  {
    seq(|m|, i requires 0 <= i < |m| => ln(m[i]))
  }

  /** A cell centre height lies in the closed layer band about `zcLayer`. */
  predicate InLayer(z: real, zcLayer: real, dzLayer: real)
  {
    zcLayer - dzLayer / 2.0 <= z <= zcLayer + dzLayer / 2.0
  }

  /** What `addLayer2Mod` leaves in the model: `sigLayer` in the band, the old value elsewhere. */
  function PaintLayer(m: seq<real>, centers: seq<Point>, zcLayer: real, dzLayer: real, sigLayer: real): (r: seq<real>)
    requires |centers| == |m|
    ensures |r| == |m|
  {
    seq(|m|, i requires 0 <= i < |m| => if InLayer(centers[i].z, zcLayer, dzLayer) then sigLayer else m[i])
  }

  /** What `addcylinder2Mod` and `addPlate2Mod` return: `sig` in every cell the
      polygon test accepts, the old value elsewhere. */
  function PaintInside(m: seq<real>, centers: seq<Point>, path: Path, sig: real, inside: (Path, Point) -> bool): (r: seq<real>)
    requires |centers| == |m|
    ensures |r| == |m|
  {
    seq(|m|, i requires 0 <= i < |m| => if inside(path, centers[i]) then sig else m[i])
  }

  /** numpy's `mod[inds] = v`: every listed cell is overwritten, no other. */
  method AssignCells(mod: array<real>, inds: set<int>, v: real)
    modifies mod
    ensures forall k :: 0 <= k < mod.Length ==> mod[k] == if k in inds then v else old(mod[k])
  {
    for i := 0 to mod.Length
      invariant forall k :: 0 <= k < i ==> mod[k] == if k in inds then v else old(mod[k])
      invariant forall k :: i <= k < mod.Length ==> mod[k] == old(mod[k])
    {
      if i in inds {
        mod[i] := v;
      }
    }
  }

  /** `copy.copy` of a numpy array: a fresh array with the same contents. */
  method CopyArray(a: array<real>) returns (b: array<real>)
    ensures fresh(b) && b[..] == a[..]
  {
    b := new real[a.Length];
    for i := 0 to a.Length
      invariant b[..i] == a[..i]
    {
      b[i] := a[i];
    }
  }

  /** `addLayer2Mod`: overwrites, in the array it is given, every cell whose
      centre height lies in [zcLayer - dzLayer/2, zcLayer + dzLayer/2], and
      returns that same array. */
  method AddLayer(zcLayer: real, dzLayer: real, mod: array<real>, sigLayer: real, centers: seq<Point>)
    returns (res: array<real>)
    requires |centers| == mod.Length
    modifies mod
    ensures res == mod
    ensures mod[..] == PaintLayer(old(mod[..]), centers, zcLayer, dzLayer, sigLayer)
  {
    var zmax := zcLayer + dzLayer / 2.0;
    var zmin := zcLayer - dzLayer / 2.0;
    var belowInd := set i | 0 <= i < mod.Length && centers[i].z <= zmax;
    var aboveInd := set i | 0 <= i < mod.Length && centers[i].z >= zmin;
    var layerInds := belowInd * aboveInd;
    AssignCells(mod, layerInds, sigLayer);
    res := mod;
  }

  /** `addcylinder2Mod`: a copy of `modd` with `sigCylinder` in every cell whose
      centre the cylinder outline contains; `modd` itself is not touched. */
  method AddCylinder(xc: real, zc: real, r: real, modd: array<real>, sigCylinder: real,
                     centers: seq<Point>, cos: real -> real, sin: real -> real, inside: (Path, Point) -> bool)
    returns (mod: array<real>)
    requires |centers| == modd.Length
    ensures fresh(mod)
    ensures mod[..] == PaintInside(modd[..], centers, CylinderPath(xc, zc, r, cos, sin), sigCylinder, inside)
  {
    var cylinderPoints := CylinderPoints(xc, zc, r, cos, sin);
    mod := CopyArray(modd);
    var path := BuildOutlinePath(cylinderPoints);
    var insideInd := set i | 0 <= i < mod.Length && inside(path, centers[i]);
    AssignCells(mod, insideInd, sigCylinder);
  }

  /** `addPlate2Mod`: a copy of `modd` with `sigPlate` in every cell whose centre
      the plate polygon contains; `modd` itself is not touched. */
  method AddPlate(xc: real, zc: real, dx: real, dz: real, rotAng: real, modd: array<real>, sigPlate: real,
                  centers: seq<Point>, cos: real -> real, sin: real -> real, inside: (Path, Point) -> bool)
    returns (mod: array<real>)
    requires |centers| == modd.Length
    ensures fresh(mod)
    ensures mod[..] == PaintInside(modd[..], centers, PlatePath(PlateCorners(xc, zc, dx, dz, rotAng, cos, sin)), sigPlate, inside)
  {
    var plateCorners := PlateCorners(xc, zc, dx, dz, rotAng, cos, sin);
    mod := CopyArray(modd);
    var path := PlatePath(plateCorners);
    var insideInd := set i | 0 <= i < mod.Length && inside(path, centers[i]);
    AssignCells(mod, insideInd, sigPlate);
  }

  /** Both faces of a band of non-negative thickness belong to the layer. */
  lemma LayerBoundsInclusive(m: seq<real>, centers: seq<Point>, zcLayer: real, dzLayer: real, sigLayer: real, i: nat)
    requires |centers| == |m| && i < |m| && dzLayer >= 0.0
    requires centers[i].z == zcLayer - dzLayer / 2.0 || centers[i].z == zcLayer + dzLayer / 2.0
    ensures PaintLayer(m, centers, zcLayer, dzLayer, sigLayer)[i] == sigLayer
  {
  }

  /** A layer of zero thickness paints exactly the cells at height `zcLayer`. */
  lemma ZeroThicknessLayer(m: seq<real>, centers: seq<Point>, zcLayer: real, sigLayer: real, i: nat)
    requires |centers| == |m| && i < |m|
    ensures PaintLayer(m, centers, zcLayer, 0.0, sigLayer)[i] == (if centers[i].z == zcLayer then sigLayer else m[i])
  {
  }

  /** A negative thickness gives an empty band: nothing is painted. */
  lemma NegativeThicknessPaintsNothing(m: seq<real>, centers: seq<Point>, zcLayer: real, dzLayer: real, sigLayer: real)
    requires |centers| == |m| && dzLayer < 0.0
    ensures PaintLayer(m, centers, zcLayer, dzLayer, sigLayer) == m
  {
  }

  /** Painting the same layer twice changes nothing more. */
  lemma PaintLayerIdempotent(m: seq<real>, centers: seq<Point>, zcLayer: real, dzLayer: real, sigLayer: real)
    requires |centers| == |m|
    ensures var once := PaintLayer(m, centers, zcLayer, dzLayer, sigLayer);
      PaintLayer(once, centers, zcLayer, dzLayer, sigLayer) == once
  {
  }

  /** The cell-by-cell outcome of painting the layer and then the anomaly:
      the anomaly wins where both apply, then the layer, then the background. */
  lemma AnomalyOverridesLayer(m: seq<real>, centers: seq<Point>, zcLayer: real, dzLayer: real, sigLayer: real,
                              path: Path, sigTarget: real, inside: (Path, Point) -> bool, i: nat)
    requires |centers| == |m| && i < |m|
    ensures PaintInside(PaintLayer(m, centers, zcLayer, dzLayer, sigLayer), centers, path, sigTarget, inside)[i]
         == if inside(path, centers[i]) then sigTarget
            else if InLayer(centers[i].z, zcLayer, dzLayer) then sigLayer
            else m[i]
  {
  }
}
