/** Geometry primitives: cell-centre points, the sampled cylinder outline,
    the rotated plate, and closed polygons in matplotlib's path encoding
    (vertices plus one code per vertex). */
module Geometry {

  /** A location in the (x, z) section; z grows upwards. */
  datatype Point = Point(x: real, z: real)

  /** `np.pi` as numpy prints it: the decimal 3.141592653589793, slightly below pi. */
  const Pi: real := 3.141592653589793

  /** Number of vertices `getCylinderPoints` samples. */
  const OutlineVertices: nat := 250

  /** matplotlib's `Path.MOVETO`, `Path.LINETO` and `Path.CLOSEPOLY`. */
  datatype PathCode = MoveTo | LineTo | ClosePoly

  /** A `matplotlib.path.Path`: vertices with one code each. */
  datatype Path = Path(verts: seq<Point>, codes: seq<PathCode>)

  /** A single closed polygon: one `MOVETO`, then only `LINETO`s, then `CLOSEPOLY`. */
  predicate IsClosedPath(p: Path)
  {
    && |p.verts| == |p.codes| >= 2
    && p.codes[0] == MoveTo
    && p.codes[|p.codes| - 1] == ClosePoly
    && forall i :: 0 < i < |p.codes| - 1 ==> p.codes[i] == LineTo
  }

  /** `np.linspace(start, stop, num)`: `num` evenly spaced values from `start` to `stop`. */
  function Linspace(start: real, stop: real, num: nat): (r: seq<real>)
    requires num >= 2
    ensures |r| == num
    ensures r[0] == start && r[num - 1] == stop
  {
    var div := (num - 1) as real;
    var step := (stop - start) / div;
    assert div * step == stop - start;
    seq(num, i requires 0 <= i < num => start + (i as real) * step)
  }

  /** Consecutive values of `Linspace` are one step `(stop - start) / (num - 1)` apart. */
  lemma LinspaceEvenlySpaced(start: real, stop: real, num: nat, i: nat)
    requires num >= 2 && i < num - 1
    ensures Linspace(start, stop, num)[i + 1] - Linspace(start, stop, num)[i] == (stop - start) / ((num - 1) as real)
  {
  }

  /** The angles at which the cylinder outline is sampled: -pi to pi inclusive. */
  function OutlineAngles(): (a: seq<real>)
    ensures |a| == OutlineVertices
  {
    Linspace(-Pi, Pi, OutlineVertices)
  }

  /** `getCylinderPoints`: the circle of radius `r` about (xc, zc) sampled at `OutlineAngles()`. */
  function CylinderPoints(xc: real, zc: real, r: real, cos: real -> real, sin: real -> real): (pts: seq<Point>)
    ensures |pts| == OutlineVertices
  {
    var angle := OutlineAngles();
    seq(OutlineVertices, i requires 0 <= i < OutlineVertices =>
      Point(cos(angle[i]) * r + xc, sin(angle[i]) * r + zc))
  }

  /** The codes `addcylinder2Mod` appends vertex by vertex: `MOVETO` first,
      `CLOSEPOLY` last, `LINETO` in between. */
  function OutlineCodes(n: nat): (c: seq<PathCode>)
    ensures |c| == n
  {
    seq(n, i requires 0 <= i < n => if i == 0 then MoveTo else if i == n - 1 then ClosePoly else LineTo)
  }

  /** The codes `sumCylinderCharges` writes: all `LINETO`, then the first set to
      `MOVETO` and the last to `CLOSEPOLY`. Empty input raises in the source. */
  function ChargeRegionCodes(n: nat): (c: seq<PathCode>)
    requires n >= 1
    ensures |c| == n
  {
    seq(n, _ => LineTo)[0 := MoveTo][n - 1 := ClosePoly]
  }

  /** The two ways of writing the codes agree on every outline of two or more vertices. */
  lemma CodeConventionsAgree(n: nat)
    requires n >= 2
    ensures OutlineCodes(n) == ChargeRegionCodes(n)
    ensures IsClosedPath(Path(seq(n, _ => Point(0.0, 0.0)), OutlineCodes(n)))
  {
  }

  /** The loop of `addcylinder2Mod` that builds `verts` and `codes` one vertex at a time. */
  method BuildOutlinePath(points: seq<Point>) returns (path: Path)
    ensures path == Path(points, OutlineCodes(|points|))
  {
    var verts: seq<Point> := [];
    var codes: seq<PathCode> := [];
    for ii := 0 to |points|
      invariant verts == points[..ii]
      invariant codes == OutlineCodes(|points|)[..ii]
    {
      verts := verts + [points[ii]];
      if ii == 0 {
        codes := codes + [MoveTo];
      } else if ii == |points| - 1 {
        codes := codes + [ClosePoly];
      } else {
        codes := codes + [LineTo];
      }
    }
    path := Path(verts, codes);
  }

  /** The cylinder outline as the closed path `addcylinder2Mod` tests cells against. */
  function CylinderPath(xc: real, zc: real, r: real, cos: real -> real, sin: real -> real): (p: Path)
    ensures IsClosedPath(p) && |p.verts| == OutlineVertices
  {
    Path(CylinderPoints(xc, zc, r, cos, sin), OutlineCodes(OutlineVertices))
  }

  /** Every outline vertex lies on the circle, wherever cos and sin satisfy
      the Pythagorean identity at its angle. */
  lemma OutlineOnCircle(xc: real, zc: real, r: real, cos: real -> real, sin: real -> real, k: nat)
    requires k < OutlineVertices
    requires cos(OutlineAngles()[k]) * cos(OutlineAngles()[k]) + sin(OutlineAngles()[k]) * sin(OutlineAngles()[k]) == 1.0
    ensures var p := CylinderPoints(xc, zc, r, cos, sin)[k];
      (p.x - xc) * (p.x - xc) + (p.z - zc) * (p.z - zc) == r * r
  {
    var t := OutlineAngles()[k];
    var c, s := cos(t), sin(t);
    assert (c * r) * (c * r) + (s * r) * (s * r) == (c * c + s * s) * (r * r);
  }

  /** The sampled angles run from -Pi to Pi, so the first and last outline vertices
      share their x wherever cos agrees at -Pi and Pi; their heights differ by
      (sin(Pi) - sin(-Pi)) * r, which is not zero for the decimal Pi. The polygon is
      closed by its CLOSEPOLY code, not by these two vertices. */
  lemma OutlineEnds(xc: real, zc: real, r: real, cos: real -> real, sin: real -> real)
    requires cos(-Pi) == cos(Pi)
    ensures var pts := CylinderPoints(xc, zc, r, cos, sin);
      && pts[0].x == pts[OutlineVertices - 1].x
      && pts[OutlineVertices - 1].z - pts[0].z == (sin(Pi) - sin(-Pi)) * r
  {
    var a, pts := OutlineAngles(), CylinderPoints(xc, zc, r, cos, sin);
    assert a[0] == -Pi && a[OutlineVertices - 1] == Pi;
    assert pts[0] == Point(cos(a[0]) * r + xc, sin(a[0]) * r + zc);
    assert pts[OutlineVertices - 1] == Point(cos(a[OutlineVertices - 1]) * r + xc, sin(a[OutlineVertices - 1]) * r + zc);
  }

  /** Rotation angle of the plate in radians, from degrees. */
  function Radians(deg: real): real
  {
    deg * (Pi / 180.0)
  }

  /** `getPlateCorners`: the corners of a `dx` by `dz` rectangle centred at the origin,
      in the order left-top, right-top, left-bottom, right-bottom, each multiplied as a
      row vector by the matrix [[c, -s], [s, c]] and then moved to (xc, zc). */
  function PlateCorners(xc: real, zc: real, dx: real, dz: real, rotAng: real, cos: real -> real, sin: real -> real): (corners: seq<Point>)
    ensures |corners| == 4
  {
    var c, s := cos(Radians(rotAng)), sin(Radians(rotAng));
    var origin := [Point(-0.5 * dx, 0.5 * dz), Point(0.5 * dx, 0.5 * dz),
                   Point(-0.5 * dx, -0.5 * dz), Point(0.5 * dx, -0.5 * dz)];
    seq(4, i requires 0 <= i < 4 => Translate(Rotate(origin[i], c, s), xc, zc))
  }

  /** The row vector p times the matrix [[c, -s], [s, c]], as `np.dot` computes it. */
  function Rotate(p: Point, c: real, s: real): Point
  {
    Point(p.x * c + p.z * s, p.x * -s + p.z * c)
  }

  function Translate(p: Point, xc: real, zc: real): Point
  {
    Point(p.x + xc, p.z + zc)
  }

  /** With c*c + s*s = 1 the matrix is a rotation: it keeps the distance between any two points. */
  lemma RotationKeepsDistance(p: Point, q: Point, c: real, s: real)
    requires c * c + s * s == 1.0
    ensures SquaredDistance(Rotate(p, c, s), Rotate(q, c, s)) == SquaredDistance(p, q)
  {
    var a, b := p.x - q.x, p.z - q.z;
    assert Rotate(p, c, s).x - Rotate(q, c, s).x == a * c + b * s;
    assert Rotate(p, c, s).z - Rotate(q, c, s).z == a * -s + b * c;
    assert (a * c + b * s) * (a * c + b * s) + (a * -s + b * c) * (a * -s + b * c)
        == (a * a + b * b) * (c * c + s * s);
  }

  /** Diagonally opposite corners are symmetric about the plate centre, whatever the rotation. */
  lemma PlateCornersCentred(xc: real, zc: real, dx: real, dz: real, rotAng: real, cos: real -> real, sin: real -> real)
    ensures var k := PlateCorners(xc, zc, dx, dz, rotAng, cos, sin);
      && k[0].x + k[3].x == 2.0 * xc && k[0].z + k[3].z == 2.0 * zc
      && k[1].x + k[2].x == 2.0 * xc && k[1].z + k[2].z == 2.0 * zc
  {
  }

  /** Without rotation (cos 0 = 1, sin 0 = 0) the corners are the axis-aligned
      left-top, right-top, left-bottom and right-bottom corners. */
  lemma PlateUnrotated(xc: real, zc: real, dx: real, dz: real, cos: real -> real, sin: real -> real)
    requires cos(0.0) == 1.0 && sin(0.0) == 0.0
    ensures PlateCorners(xc, zc, dx, dz, 0.0, cos, sin) ==
      [Point(xc - dx / 2.0, zc + dz / 2.0), Point(xc + dx / 2.0, zc + dz / 2.0),
       Point(xc - dx / 2.0, zc - dz / 2.0), Point(xc + dx / 2.0, zc - dz / 2.0)]
  {
  }

  function SquaredDistance(p: Point, q: Point): real
  {
    (p.x - q.x) * (p.x - q.x) + (p.z - q.z) * (p.z - q.z)
  }

  /** The plate polygon `addPlate2Mod` draws: corners 0, 1, 3, 2 and back to 0. */
  function PlatePath(corners: seq<Point>): (p: Path)
    requires |corners| == 4
    ensures IsClosedPath(p) && |p.verts| == 5 && p.verts[0] == p.verts[4]
    ensures p.codes == OutlineCodes(5)
  {
    Path([corners[0], corners[1], corners[3], corners[2], corners[0]],
         [MoveTo, LineTo, LineTo, LineTo, ClosePoly])
  }

  /** The plate polygon keeps its width and height under rotation: consecutive
      vertices of `PlatePath` are `dx`, `dz`, `dx`, `dz` apart. */
  lemma PlateSidesPreserved(xc: real, zc: real, dx: real, dz: real, rotAng: real, cos: real -> real, sin: real -> real)
    requires cos(Radians(rotAng)) * cos(Radians(rotAng)) + sin(Radians(rotAng)) * sin(Radians(rotAng)) == 1.0
    ensures var v := PlatePath(PlateCorners(xc, zc, dx, dz, rotAng, cos, sin)).verts;
      && SquaredDistance(v[0], v[1]) == dx * dx
      && SquaredDistance(v[1], v[2]) == dz * dz
      && SquaredDistance(v[2], v[3]) == dx * dx
      && SquaredDistance(v[3], v[4]) == dz * dz
  {
    var c, s := cos(Radians(rotAng)), sin(Radians(rotAng));
    var k := PlateCorners(xc, zc, dx, dz, rotAng, cos, sin);
    var o0, o1 := Point(-0.5 * dx, 0.5 * dz), Point(0.5 * dx, 0.5 * dz);
    var o2, o3 := Point(-0.5 * dx, -0.5 * dz), Point(0.5 * dx, -0.5 * dz);
    assert k[0] == Translate(Rotate(o0, c, s), xc, zc) && k[1] == Translate(Rotate(o1, c, s), xc, zc);
    assert k[2] == Translate(Rotate(o2, c, s), xc, zc) && k[3] == Translate(Rotate(o3, c, s), xc, zc);
    RigidMotionKeepsDistance(o0, o1, c, s, xc, zc);
    RigidMotionKeepsDistance(o1, o3, c, s, xc, zc);
    RigidMotionKeepsDistance(o3, o2, c, s, xc, zc);
    RigidMotionKeepsDistance(o2, o0, c, s, xc, zc);
    HorizontalSide(dx, 0.5 * dz);
    HorizontalSide(dx, -0.5 * dz);
    VerticalSide(0.5 * dx, dz);
    VerticalSide(-0.5 * dx, dz);
  }

  /** A rotation followed by a translation keeps the distance between two points. */
  lemma RigidMotionKeepsDistance(p: Point, q: Point, c: real, s: real, xc: real, zc: real)
    requires c * c + s * s == 1.0
    ensures SquaredDistance(Translate(Rotate(p, c, s), xc, zc), Translate(Rotate(q, c, s), xc, zc)) == SquaredDistance(p, q)
  {
    RotationKeepsDistance(p, q, c, s);
  }

  lemma HorizontalSide(dx: real, z: real)
    ensures SquaredDistance(Point(-0.5 * dx, z), Point(0.5 * dx, z)) == dx * dx
    ensures SquaredDistance(Point(0.5 * dx, z), Point(-0.5 * dx, z)) == dx * dx
  {
  }

  lemma VerticalSide(x: real, dz: real)
    ensures SquaredDistance(Point(x, 0.5 * dz), Point(x, -0.5 * dz)) == dz * dz
    ensures SquaredDistance(Point(x, -0.5 * dz), Point(x, 0.5 * dz)) == dz * dz
  {
  }
}
