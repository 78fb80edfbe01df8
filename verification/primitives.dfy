/** The primitive factory of src/csg/primitives.ts: leaf constructors, the
    bounding sizes the sized ones record, `align`, sector clipping of
    cylinders and the corner-hull rounding of boxes. */
module Primitives {
  import opened Wrappers
  import opened V3
  import V2
  import opened Shapes

  /** A solid together with its axis-aligned bounding size. */
  datatype Alignable = Alignable(shape: Shape, size: Vec3)

  function Max(a: real, b: real): real
  {
    if a >= b then a else b
  }

  /** `Math.sign` on finite numbers. */
  function Sign(a: real): real
  {
    if a > 0.0 then 1.0 else if a < 0.0 then -1.0 else 0.0
  }

  /** The component of an alignment offset along one axis: half the extent
      towards the face the direction points at, nothing if it points nowhere. */
  predicate TowardFace(extent: real, direction: real, offset: real)
  {
    && (direction > 0.0 ==> offset == extent / 2.0)
    && (direction < 0.0 ==> offset == -extent / 2.0)
    && (direction == 0.0 ==> offset == 0.0)
  }

  /** `Math.sign(d) * extent / 2`: the offset along one axis. */
  function FaceOffset(extent: real, d: real): (o: real)
    ensures TowardFace(extent, d, o)
  {
    Sign(d) * extent / 2.0
  }

  /** `align(v)`: move the solid by half its size towards the faces the signs
      of `v` select. The result is a plain solid that no longer records a size. */
  function Align(a: Alignable, v: Vec3): (r: Shape)
    ensures r.Translate? && r.child == a.shape
    ensures TowardFace(a.size.x, v.x, r.offset.x)
    ensures TowardFace(a.size.y, v.y, r.offset.y)
    ensures TowardFace(a.size.z, v.z, r.offset.z)
    ensures IsSolid(a.shape) ==> IsSolid(r)
  {
    Translate(Vec3(FaceOffset(a.size.x, v.x), FaceOffset(a.size.y, v.y), FaceOffset(a.size.z, v.z)), a.shape)
  }

  /** Only the signs of the direction matter: its magnitudes are ignored. */
  lemma AlignDependsOnlyOnSigns(a: Alignable, v: Vec3, w: Vec3)
    requires Sign(v.x) == Sign(w.x) && Sign(v.y) == Sign(w.y) && Sign(v.z) == Sign(w.z)
    ensures Align(a, v) == Align(a, w)
  {
  }

  /** Aligning to the opposite faces moves the solid by the opposite offset. */
  lemma AlignOpposite(a: Alignable, v: Vec3)
    ensures Align(a, Scale(-1.0, v)).offset == Scale(-1.0, Align(a, v).offset)
  {
    var w := Scale(-1.0, v);
    assert w.x == -v.x && w.y == -v.y && w.z == -v.z;
    assert FaceOffset(a.size.x, w.x) == -FaceOffset(a.size.x, v.x);
    assert FaceOffset(a.size.y, w.y) == -FaceOffset(a.size.y, v.y);
    assert FaceOffset(a.size.z, w.z) == -FaceOffset(a.size.z, v.z);
  }

  // ---------------------------------------------------------------- leaves

  /** `circle(p)`: a profile whose record holds exactly the radius-or-diameter given. */
  function Circle(round: Round, fn: Option<real>): (r: Shape)
    ensures IsProfile(r)
    ensures r.Leaf? && r.args == CircleArgs(round, fn)
  {
    Leaf(LeafKind.Circle, CircleArgs(round, fn))
  }

  /** `regular_polygon(p)`: a circle whose `$fn` resolution is mandatory. */
  function RegularPolygon(round: Round, fn: real): (r: Shape)
    ensures IsProfile(r) && r.Leaf? && r.kind == LeafKind.Circle
    ensures r.args.CircleArgs? && r.args.round == round && r.args.fn == Some(fn)
  {
    Circle(round, Some(fn))
  }

  /** `square(p)`: a centred rectangle profile. */
  function Square(size: V2.Vec2): (r: Shape)
    ensures IsProfile(r)
    ensures r.Leaf? && r.args == Size2(size)
  {
    Leaf(LeafKind.Square, Size2(size))
  }

  /** `polygon(p)`: a profile through the given points. */
  function Polygon(points: seq<V2.Vec2>, convexity: Option<real>): (r: Shape)
    ensures IsProfile(r)
    ensures r.Leaf? && r.args == PolygonArgs(points, convexity)
  {
    Leaf(LeafKind.Polygon, PolygonArgs(points, convexity))
  }

  /** `text(p)`: built as a solid statement, although it renders a profile. */
  function Text(text: string): (r: Shape)
    ensures IsSolid(r)
    ensures r.Leaf? && r.kind == LeafKind.Text && r.args == TextArgs(text)
  {
    Leaf(LeafKind.Text, TextArgs(text))
  }

  /** `ployhedron(p)`: a solid given by vertices and faces. */
  function Ployhedron(vertices: seq<Vec3>, faces: seq<Vec3>, convexity: real): (r: Shape)
    ensures IsSolid(r)
    ensures r.Leaf? && Name(r.kind) == "ployhedron"
    ensures r.args == PolyhedronArgs(vertices, faces, convexity)
  {
    Leaf(LeafKind.Ployhedron, PolyhedronArgs(vertices, faces, convexity))
  }

  /** `sphere(p)`: its bounding size is a cube of its diameter. */
  function Sphere(round: Round, fn: Option<real>): (r: Alignable)
    ensures IsSolid(r.shape) && r.shape == Leaf(LeafKind.Sphere, CircleArgs(round, fn))
    ensures r.size.x == r.size.y == r.size.z
    ensures round.Diameter? ==> r.size.x == round.d
    ensures round.Radius? ==> r.size.x == 2.0 * round.r
  {
    var s := if round.Diameter? then round.d else round.r * 2.0;
    Alignable(Leaf(LeafKind.Sphere, CircleArgs(round, fn)), Vec3(s, s, s))
  }

  /** A sphere of radius r and one of diameter 2r record the same size. */
  lemma SphereSizeIndependentOfForm(r: real, fn: Option<real>)
    ensures Sphere(Radius(r), fn).size == Sphere(Diameter(2.0 * r), fn).size
  {
  }

  /** `cube(p)`: a centred box that records its own size. */
  function Cube(size: Vec3): (r: Alignable)
    ensures IsSolid(r.shape) && r.size == size
    ensures r.shape == Leaf(LeafKind.Cube, Size3(size))
  {
    Alignable(Leaf(LeafKind.Cube, Size3(size)), size)
  }

  /** `cube([10,10,10]).align([1,0,0])` is the cube moved 5 along x. */
  lemma AlignCubeExample()
    ensures Align(Cube(Vec3(10.0, 10.0, 10.0)), Vec3(1.0, 0.0, 0.0))
         == Translate(Vec3(5.0, 0.0, 0.0), Leaf(LeafKind.Cube, Size3(Vec3(10.0, 10.0, 10.0))))
  {
  }

  // ------------------------------------------------------------- cylinders

  /** The cylinder property record as callers give it, including the
      optional sector (0 stands for an absent sector: both skip clipping). */
  datatype CylinderProps = CylinderProps(frustum: Frustum, h: real, fn: Option<real>, sector: nat)

  function BottomDiameter(f: Frustum): real
  {
    match f
    case R(r) => 2.0 * r
    case R12(r1, _) => 2.0 * r1
    case D(d) => d
    case D12(d1, _) => d1
  }

  function TopDiameter(f: Frustum): real
  {
    match f
    case R(r) => 2.0 * r
    case R12(_, r2) => 2.0 * r2
    case D(d) => d
    case D12(_, d2) => d2
  }

  /** The width a cylinder records: the larger of its two end diameters. */
  function Width(f: Frustum): (w: real)
    ensures w == Max(BottomDiameter(f), TopDiameter(f))
  {
    match f
    case D(d) => d
    case D12(d1, d2) => Max(d1, d2)
    case R(r) => r * 2.0
    case R12(r1, r2) => Max(r1, r2) * 2.0
  }

  /** The cylinder statement itself: the record without its sector. */
  function CylinderLeaf(p: CylinderProps): Shape
  {
    Leaf(LeafKind.Cylinder, CylinderArgs(p.frustum, p.h, p.fn))
  }

  /** Clipping happens for a present sector that is not a whole number of turns. */
  predicate Clipped(sector: nat)
  {
    sector != 0 && sector % 360 != 0
  }

  /** The number of fan segments: the least n whose n quarter turns exceed the angle. */
  function Divisions(angle: nat): (n: nat)
    requires 0 < angle < 360
    ensures 1 <= n <= 4
    ensures (n - 1) * 90 <= angle < n * 90
  {
    angle / 90 + 1
  }

  /** Each fan segment spans a positive angle below a quarter turn, and the
      segments together span the whole sector angle. */
  function SubAngle(angle: nat): (a: real)
    requires 0 < angle < 360
    ensures 0.0 < a < 90.0
    ensures a * Divisions(angle) as real == angle as real
  {
    angle as real / Divisions(angle) as real
  }

  /** The fan point at `degrees`: `width` times `unit(degrees)`, where `unit`
      stands for the vector `(cos, sin)` of an angle in degrees. */
  function FanPoint(width: real, degrees: real, unit: real -> V2.Vec2): V2.Vec2
  {
    V2.Scale(width, unit(degrees))
  }

  /** When `unit` gives a vector of length 1, the fan point lies at distance
      `|width|` from the axis. */
  lemma FanPointAtWidth(width: real, degrees: real, unit: real -> V2.Vec2)
    requires V2.Dot(unit(degrees), unit(degrees)) == 1.0
    ensures V2.Dot(FanPoint(width, degrees, unit), FanPoint(width, degrees, unit)) == width * width
  {
    var u := unit(degrees);
    calc {
      V2.Dot(V2.Scale(width, u), V2.Scale(width, u));
      (width * u.x) * (width * u.x) + (width * u.y) * (width * u.y);
      width * width * (u.x * u.x + u.y * u.y);
    }
  }

  /** The clipping polygon's points: the origin, then one point per segment
      boundary from angle 0 out to the whole sector angle. */
  function FanPoints(width: real, angle: nat, unit: real -> V2.Vec2): (ps: seq<V2.Vec2>)
    requires 0 < angle < 360
    ensures |ps| == Divisions(angle) + 2
    ensures ps[0] == V2.Zero
    ensures ps[1] == FanPoint(width, 0.0, unit)
    ensures ps[|ps| - 1] == FanPoint(width, angle as real, unit)
    ensures forall i :: 1 <= i < |ps| ==> ps[i] == FanPoint(width, SubAngle(angle) * (i - 1) as real, unit)
  {
    var n := Divisions(angle);
    var sub := SubAngle(angle);
    var points := seq(n + 1, k requires 0 <= k <= n => FanPoint(width, sub * k as real, unit));
    var ps := [V2.Zero] + points;
    assert forall i :: 1 <= i < |ps| ==> ps[i] == points[i - 1];
    assert ps[|ps| - 1] == FanPoint(width, sub * n as real, unit);
    ps
  }

  /** The clipping wedge: the fan polygon extruded to one unit above the
      cylinder's height. The extrusion is given no `center`, so it starts at
      z = 0 and keeps only the upper half of the centred cylinder it clips. */
  function Wedge(width: real, h: real, angle: nat, unit: real -> V2.Vec2): (w: Shape)
    requires 0 < angle < 360
    ensures IsSolid(w)
    ensures w.LinearExtrude? && w.height == h + 1.0 && w.child == Polygon(FanPoints(width, angle, unit), None)
    ensures w.center == None
  {
    LinearExtrude(h + 1.0, None, Polygon(FanPoints(width, angle, unit), None))
  }

  /** The clipped cylinder: the bare statement intersected with the wedge. */
  function ClippedCylinder(p: CylinderProps, unit: real -> V2.Vec2): (s: Shape)
    requires Clipped(p.sector)
    ensures IsSolid(s)
    ensures s.Intersection? && s.base == CylinderLeaf(p) && |s.rest| == 1
    ensures s.rest[0] == Wedge(Width(p.frustum), p.h, p.sector % 360, unit)
  {
    var wedge := Wedge(Width(p.frustum), p.h, p.sector % 360, unit);
    assert forall t | t in [wedge] :: IsSolid(t);
    assert IsSolid(CylinderLeaf(p)) && SameDim(CylinderLeaf(p), [wedge]);
    Intersection(CylinderLeaf(p), [wedge])
  }

  /** `cylinder(p)`. Its size is width x width x height whether clipped or not.
      Without clipping it is the bare cylinder statement; with clipping it is
      that statement intersected with a fan polygon extruded one unit taller. */
  function Cylinder(p: CylinderProps, unit: real -> V2.Vec2): (r: Alignable)
    ensures r.size == Vec3(Width(p.frustum), Width(p.frustum), p.h)
    ensures IsSolid(r.shape)
    ensures !Clipped(p.sector) ==> r.shape == CylinderLeaf(p)
    ensures Clipped(p.sector) ==>
      && r.shape.Intersection?
      && r.shape.base == CylinderLeaf(p)
      && |r.shape.rest| == 1
      && r.shape.rest[0].LinearExtrude?
      && r.shape.rest[0].height == p.h + 1.0
      && r.shape.rest[0].center == None
      && r.shape.rest[0].child == Polygon(FanPoints(Width(p.frustum), p.sector % 360, unit), None)
  {
    var width := Width(p.frustum);
    if Clipped(p.sector) then
      Alignable(ClippedCylinder(p, unit), Vec3(width, width, p.h))
    else
      Alignable(CylinderLeaf(p), Vec3(width, width, p.h))
  }

  /** A whole number of turns builds exactly the unclipped cylinder. */
  lemma FullTurnsAreNotClipped(p: CylinderProps, k: nat, unit: real -> V2.Vec2)
    ensures Cylinder(p.(sector := 360 * k), unit) == Cylinder(p.(sector := 0), unit)
  {
    DivModUnique(360 * k, 360, k, 0);
  }

  /** Adding a full turn to the sector changes nothing. */
  lemma SectorPeriodic(p: CylinderProps, unit: real -> V2.Vec2)
    ensures Cylinder(p.(sector := p.sector + 360), unit) == Cylinder(p, unit)
  {
    assert (p.sector + 360) % 360 == p.sector % 360;
  }

  /** The sector never reaches the serializer: the cylinder statement's text
      is the same for every sector. */
  lemma SectorNotSerialized(p: CylinderProps, s: nat, ser: Args -> string)
    ensures LeafText(LeafKind.Cylinder, CylinderLeaf(p.(sector := s)).args, ser)
         == LeafText(LeafKind.Cylinder, CylinderLeaf(p).args, ser)
  {
  }

  lemma DivisionExamples()
    ensures Divisions(270) == 4 && Divisions(30) == 1 && Divisions(90) == 2
  {
  }

  // -------------------------------------------------------- corner rounding

  /** The smallest corner radius used, so that no corner primitive is degenerate. */
  const MinRadius: real := 0.001

  function Pow2(n: nat): (r: nat)
    ensures r >= 1
  {
    if n == 0 then 1 else 2 * Pow2(n - 1)
  }

  /** Quotient and remainder are determined by any decomposition `a == n * q + m` with `0 <= m < n`. */
  lemma DivModUnique(a: int, n: int, q: int, m: int)
    requires n > 0 && 0 <= m < n && a == n * q + m
    ensures a / n == q && a % n == m
  {
    var q', m' := a / n, a % n;
    assert n * (q - q') == m' - m;
    if q > q' {
      MulAtLeast(n, q - q');
    } else if q < q' {
      MulAtLeast(n, q' - q);
    }
  }

  lemma {:induction false} MulAtLeast(n: int, k: int)
    requires n > 0 && k >= 1
    ensures n * k >= n
    decreases k
  {
    if k > 1 {
      MulAtLeast(n, k - 1);
      assert n * k == n * (k - 1) + n;
    }
  }

  /** Binary digit `j` of `i`: the test `(i & (1 << j)) > 0`. */
  predicate Bit(i: nat, j: nat)
  {
    (i / Pow2(j)) % 2 == 1
  }

  /** Digit `j + 1` of `i` is digit `j` of `i / 2`. */
  lemma BitShift(i: nat, j: nat)
    ensures Bit(i, j + 1) == Bit(i / 2, j)
  {
    var p := Pow2(j);
    var q, b := i / 2, i % 2;
    var k, m := q / p, q % p;
    assert i == (2 * p) * k + (2 * m + b);
    DivModUnique(i, 2 * p, k, 2 * m + b);
  }

  /** Two different corner indices differ in some binary digit below `dim`:
      distinct corners lie in distinct orthants. */
  lemma {:induction false} CornerBitsDistinct(i: nat, k: nat, dim: nat)
    requires i != k && i < Pow2(dim) && k < Pow2(dim)
    ensures exists j :: 0 <= j < dim && Bit(i, j) != Bit(k, j)
    decreases dim
  {
    if i % 2 != k % 2 {
      assert Bit(i, 0) != Bit(k, 0);
    } else {
      assert i == 2 * (i / 2) + i % 2 && k == 2 * (k / 2) + k % 2;
      CornerBitsDistinct(i / 2, k / 2, dim - 1);
      var j :| 0 <= j < dim - 1 && Bit(i / 2, j) != Bit(k / 2, j);
      BitShift(i, j);
      BitShift(k, j);
      assert Bit(i, j + 1) != Bit(k, j + 1);
    }
  }

  /** The corner index whose binary digits are the given pattern, least significant first. */
  function CornerIndex(pattern: seq<bool>): (i: nat)
    ensures i < Pow2(|pattern|)
    ensures forall j :: 0 <= j < |pattern| ==> (Bit(i, j) <==> pattern[j])
  {
    if |pattern| == 0 then 0
    else
      var q := CornerIndex(pattern[1..]);
      var i := (if pattern[0] then 1 else 0) + 2 * q;
      assert i / 2 == q && i % 2 == (if pattern[0] then 1 else 0);
      BitShifts(i);
      i
  }

  lemma BitShifts(i: nat)
    ensures forall j: nat :: Bit(i, j + 1) == Bit(i / 2, j)
  {
    forall j: nat
      ensures Bit(i, j + 1) == Bit(i / 2, j)
    {
      BitShift(i, j);
    }
  }

  /** Component `j` of a vector. */
  function Coord(v: Vec3, j: nat): real
    requires j < 3
  {
    if j == 0 then v.x else if j == 1 then v.y else v.z
  }

  /** The radius of corner `i`: the radii cycle over the corners, and none is below `MinRadius`. */
  function CornerRadius(radii: seq<real>, i: nat): (r: real)
    requires |radii| > 0
    ensures r >= MinRadius
    ensures r == radii[i % |radii|] || r == MinRadius
    ensures radii[i % |radii|] >= MinRadius ==> r == radii[i % |radii|]
  {
    Max(radii[i % |radii|], MinRadius)
  }

  /** The radius list repeats with the period of its length. */
  lemma RadiiCycle(radii: seq<real>, i: nat)
    requires |radii| > 0
    ensures CornerRadius(radii, i + |radii|) == CornerRadius(radii, i)
  {
    DivModUnique(i + |radii|, |radii|, i / |radii| + 1, i % |radii|);
  }

  /** The coordinate of a corner centre on one axis: inset by `r` from the
      face on the side that the corner's bit selects. */
  function Inset(half: real, r: real, positive: bool): real
  {
    if positive then half - r else -half + r
  }

  /** The centre of corner `i` of a box of size `size` with corner radius `r`,
      on the first `dim` axes; a planar corner lies at height 0. Each centre
      is exactly `r` away from the face it is nearest to on every rounded axis. */
  function CornerCentre(size: Vec3, r: real, i: nat, dim: nat): (c: Vec3)
    requires dim == 2 || dim == 3
    ensures forall j :: 0 <= j < dim ==>
      (Bit(i, j) ==> Coord(size, j) / 2.0 - Coord(c, j) == r) &&
      (!Bit(i, j) ==> Coord(c, j) + Coord(size, j) / 2.0 == r)
    ensures dim == 2 ==> c.z == 0.0
  {
    Vec3(Inset(size.x / 2.0, r, Bit(i, 0)),
         Inset(size.y / 2.0, r, Bit(i, 1)),
         if dim == 3 then Inset(size.z / 2.0, r, Bit(i, 2)) else 0.0)
  }

  /** On a rounded axis a corner primitive of radius `r` touches the face its
      bit selects, and it stays within the box exactly when `r` is at most
      half the box's extent; radii are not clamped against the box. */
  lemma CornerWithinBox(size: Vec3, r: real, i: nat, dim: nat, j: nat)
    requires dim == 2 || dim == 3
    requires j < dim
    ensures Bit(i, j) ==> Coord(CornerCentre(size, r, i, dim), j) + r == Coord(size, j) / 2.0
    ensures !Bit(i, j) ==> Coord(CornerCentre(size, r, i, dim), j) - r == -Coord(size, j) / 2.0
    ensures (-Coord(size, j) / 2.0 <= Coord(CornerCentre(size, r, i, dim), j) - r
             && Coord(CornerCentre(size, r, i, dim), j) + r <= Coord(size, j) / 2.0)
        <==> r <= Coord(size, j) / 2.0
  {
  }

  /** When every corner radius is below half the box on each rounded axis,
      distinct corners have distinct centres. */
  lemma CornerCentresDistinct(size: Vec3, radii: seq<real>, dim: nat, i: nat, k: nat)
    requires |radii| > 0
    requires dim == 2 || dim == 3
    requires i != k && i < Pow2(dim) && k < Pow2(dim)
    requires forall j :: 0 <= j < dim ==> CornerRadius(radii, i) < Coord(size, j) / 2.0
    requires forall j :: 0 <= j < dim ==> CornerRadius(radii, k) < Coord(size, j) / 2.0
    ensures CornerCentre(size, CornerRadius(radii, i), i, dim) != CornerCentre(size, CornerRadius(radii, k), k, dim)
  {
    CornerBitsDistinct(i, k, dim);
    var j :| 0 <= j < dim && Bit(i, j) != Bit(k, j);
    var ci := CornerCentre(size, CornerRadius(radii, i), i, dim);
    var ck := CornerCentre(size, CornerRadius(radii, k), k, dim);
    if Bit(i, j) {
      assert Coord(ci, j) > 0.0 > Coord(ck, j);
    } else {
      assert Coord(ck, j) > 0.0 > Coord(ci, j);
    }
  }

  /** Every pattern of faces names one corner of the rounding. */
  lemma EveryPatternIsACorner(size: Vec3, r: real, pattern: seq<bool>)
    requires |pattern| == 2 || |pattern| == 3
    ensures CornerIndex(pattern) < Pow2(|pattern|)
    ensures forall j :: 0 <= j < |pattern| ==>
      Coord(CornerCentre(size, r, CornerIndex(pattern), |pattern|), j)
        == (if pattern[j] then Coord(size, j) / 2.0 - r else -Coord(size, j) / 2.0 + r)
  {
  }

  /** The rounding primitive placed at each corner: a cylinder of the box's
      height for planar rounding, a sphere for full rounding. */
  datatype CornerKind = CylinderCorner(h: real) | SphereCorner

  function CornerSolid(kind: CornerKind, r: real): (s: Shape)
    ensures IsSolid(s)
  {
    match kind
    case CylinderCorner(h) => CylinderLeaf(CylinderProps(R(r), h, None, 0))
    case SphereCorner => Sphere(Radius(r), None).shape
  }

  /** Corner `i`: its primitive of the corner's radius, moved to the corner's centre. */
  function Corner(size: Vec3, radii: seq<real>, kind: CornerKind, dim: nat, i: nat): (s: Shape)
    requires |radii| > 0
    requires dim == 2 || dim == 3
    ensures IsSolid(s)
  {
    var r := CornerRadius(radii, i);
    Translate(CornerCentre(size, r, i, dim), CornerSolid(kind, r))
  }

  /** `_round`: one hull over 2^dim corner primitives, corner 0 first and the
      rest in index order. The rounded box keeps the box's size. */
  function RoundCorners(size: Vec3, radii: seq<real>, kind: CornerKind, dim: nat): (r: Alignable)
    requires |radii| > 0
    requires dim == 2 || dim == 3
    ensures r.size == size
    ensures IsSolid(r.shape)
    ensures r.shape.Hull? && 1 + |r.shape.rest| == Pow2(dim)
    ensures r.shape.base == Corner(size, radii, kind, dim, 0)
    ensures forall k :: 0 <= k < |r.shape.rest| ==> r.shape.rest[k] == Corner(size, radii, kind, dim, k + 1)
  {
    var corners := seq(Pow2(dim), i requires 0 <= i => Corner(size, radii, kind, dim, i));
    assert forall t | t in corners[1..] :: IsSolid(t);
    Alignable(Hull(corners[0], corners[1..]), size)
  }

  /** The corner at index `k` of a rounding: the hull's base for 0, else its operand `k - 1`. */
  function CornerAt(hull: Shape, k: nat): Shape
    requires hull.Hull? && k <= |hull.rest|
  {
    if k == 0 then hull.base else hull.rest[k - 1]
  }

  /** Every corner of a rounding is its own radius's primitive, centred
      exactly that radius inside the faces the corner's bits select. */
  lemma {:induction false} CornerInsetByOwnRadius(size: Vec3, radii: seq<real>, kind: CornerKind, dim: nat, k: nat)
    requires |radii| > 0
    requires dim == 2 || dim == 3
    requires k < Pow2(dim)
    ensures var s := RoundCorners(size, radii, kind, dim).shape;
      var c := CornerAt(s, k);
      var r := CornerRadius(radii, k);
      && c.Translate? && c.child == CornerSolid(kind, r)
      && forall j :: 0 <= j < dim ==>
           (Bit(k, j) ==> Coord(size, j) / 2.0 - Coord(c.offset, j) == r) &&
           (!Bit(k, j) ==> Coord(c.offset, j) + Coord(size, j) / 2.0 == r)
  {
    var s := RoundCorners(size, radii, kind, dim).shape;
    assert CornerAt(s, k) == Corner(size, radii, kind, dim, k);
  }

  /** Full rounding: corner `k` is a sphere of radius `max(radii[k mod n], 0.001)`
      inset by exactly that radius from its three faces. */
  lemma Round3DCornerSpheres(size: Vec3, radii: seq<real>, k: nat)
    requires |radii| > 0
    requires k < 8
    ensures var c := CornerAt(Round3D(size, radii).shape, k);
      var r := Max(radii[k % |radii|], MinRadius);
      && c.Translate? && c.child == Leaf(LeafKind.Sphere, CircleArgs(Radius(r), None))
      && forall j :: 0 <= j < 3 ==>
           (Bit(k, j) ==> Coord(size, j) / 2.0 - Coord(c.offset, j) == r) &&
           (!Bit(k, j) ==> Coord(c.offset, j) + Coord(size, j) / 2.0 == r)
  {
    CornerInsetByOwnRadius(size, radii, SphereCorner, 3, k);
  }

  /** The axis a planar rounding rounds about. */
  datatype Axis = X | Y | Z

  /** `round2D(r)` on a fresh box of the given size, about the z axis. */
  function RoundZ(size: Vec3, radii: seq<real>): Alignable
    requires |radii| > 0
  {
    RoundCorners(size, radii, CylinderCorner(size.z), 2)
  }

  /** A corner of a planar rounding: a cylinder of height `h` and a radius
      not below `MinRadius`, moved within the plane z = 0. */
  predicate CylinderCornerOf(s: Shape, h: real)
  {
    && s.Translate? && s.offset.z == 0.0
    && s.child.Leaf? && s.child.kind == LeafKind.Cylinder
    && s.child.args.CylinderArgs? && s.child.args.frustum.R?
    && s.child.args.h == h && s.child.args.cylinderFn == None
    && s.child.args.frustum.r >= MinRadius
  }

  /** A corner of a full rounding: a sphere of radius not below `MinRadius`, moved. */
  predicate SphereCornerOf(s: Shape)
  {
    && s.Translate?
    && s.child.Leaf? && s.child.kind == LeafKind.Sphere
    && s.child.args.CircleArgs? && s.child.args.round.Radius? && s.child.args.fn == None
    && s.child.args.round.r >= MinRadius
  }

  /** `round2D(r, direction)`: four corner cylinders as tall as the box along
      the rounding axis. About y or x the box is rounded with its axes
      permuted and rotated back; the original size is reported in every case. */
  function Round2D(size: Vec3, radii: seq<real>, direction: Axis): (r: Alignable)
    requires |radii| > 0
    ensures r.size == size
    ensures IsSolid(r.shape)
    ensures direction == Z ==>
      && r.shape.Hull? && |r.shape.rest| == 3
      && CylinderCornerOf(r.shape.base, size.z)
      && forall k :: 0 <= k < 3 ==> CylinderCornerOf(r.shape.rest[k], size.z)
    ensures direction == Y ==>
      r.shape == Rotate(Vec3(-90.0, 0.0, 0.0), RoundZ(Vec3(size.x, size.z, size.y), radii).shape)
    ensures direction == X ==>
      r.shape == Rotate(Vec3(0.0, 90.0, 0.0), RoundZ(Vec3(size.z, size.y, size.x), radii).shape)
  {
    match direction
    case Z => RoundZ(size, radii)
    case Y => Alignable(Rotate(Vec3(-90.0, 0.0, 0.0), RoundZ(Vec3(size.x, size.z, size.y), radii).shape), size)
    case X => Alignable(Rotate(Vec3(0.0, 90.0, 0.0), RoundZ(Vec3(size.z, size.y, size.x), radii).shape), size)
  }

  /** Rounding about y or x uses corner cylinders as tall as the box is along that axis. */
  lemma RoundAboutAxisHeight(size: Vec3, radii: seq<real>)
    requires |radii| > 0
    ensures CylinderCornerOf(Round2D(size, radii, Y).shape.child.base, size.y)
    ensures CylinderCornerOf(Round2D(size, radii, X).shape.child.base, size.x)
  {
  }

  /** `round3D(r)`: one hull over eight corner spheres, keeping the box's size. */
  function Round3D(size: Vec3, radii: seq<real>): (r: Alignable)
    requires |radii| > 0
    ensures r.size == size
    ensures IsSolid(r.shape)
    ensures r.shape.Hull? && |r.shape.rest| == 7
    ensures SphereCornerOf(r.shape.base)
    ensures forall k :: 0 <= k < 7 ==> SphereCornerOf(r.shape.rest[k])
  {
    RoundCorners(size, radii, SphereCorner, 3)
  }
}
