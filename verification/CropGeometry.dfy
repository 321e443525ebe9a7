/** The matrices that place a crop box: 4 by 4 over the reals, an angle being its cosine and sine. */
module CropGeometry {
  import opened Outcomes
  import opened Space

  datatype Row = Row(x: real, y: real, z: real, w: real)

  /** Four rows. */
  datatype Matrix = Matrix(a: Row, b: Row, c: Row, d: Row)

  datatype Angle = Angle(cos: real, sin: real)

  datatype Axis = AxisX | AxisY | AxisZ

  const LAST := Row(0.0, 0.0, 0.0, 1.0)

  const GLTF_TO_BLENDER := Matrix(
    Row(1.0, 0.0, 0.0, 0.0),
    Row(0.0, 0.0, -1.0, 0.0),
    Row(0.0, 1.0, 0.0, 0.0),
    LAST)

  const MIN_CUTTER_SIZE := 0.000001

  const NO_TURN := Angle(1.0, 0.0)

  ghost predicate OnCircle(a: Angle) { a.cos * a.cos + a.sin * a.sin == 1.0 }

  // ----- the operations

  function RowTimes(r: Row, m: Matrix): Row {
    Row(
      r.x * m.a.x + r.y * m.b.x + r.z * m.c.x + r.w * m.d.x,
      r.x * m.a.y + r.y * m.b.y + r.z * m.c.y + r.w * m.d.y,
      r.x * m.a.z + r.y * m.b.z + r.z * m.c.z + r.w * m.d.z,
      r.x * m.a.w + r.y * m.b.w + r.z * m.c.w + r.w * m.d.w)
  }

  function MatMul(m: Matrix, n: Matrix): Matrix {
    Matrix(RowTimes(m.a, n), RowTimes(m.b, n), RowTimes(m.c, n), RowTimes(m.d, n))
  }

  function RowAt(r: Row, p: Vec3): real {
    r.x * p.x + r.y * p.y + r.z * p.z + r.w
  }

  function TransformPoint(m: Matrix, p: Vec3): Vec3 {
    Vec3(RowAt(m.a, p), RowAt(m.b, p), RowAt(m.c, p))
  }

  function BlenderToGltf(p: Vec3): Vec3 {
    Vec3(p.x, p.z, -p.y)
  }

  function Rotation(axis: Axis, a: Angle): Matrix {
    match axis
    case AxisX => Matrix(Row(1.0, 0.0, 0.0, 0.0), Row(0.0, a.cos, -a.sin, 0.0), Row(0.0, a.sin, a.cos, 0.0), LAST)
    case AxisY => Matrix(Row(a.cos, 0.0, a.sin, 0.0), Row(0.0, 1.0, 0.0, 0.0), Row(-a.sin, 0.0, a.cos, 0.0), LAST)
    case AxisZ => Matrix(Row(a.cos, -a.sin, 0.0, 0.0), Row(a.sin, a.cos, 0.0, 0.0), Row(0.0, 0.0, 1.0, 0.0), LAST)
  }

  datatype Bounds = Bounds(center: Vec3, size: Vec3)

  datatype NoGeometry = NoGeometry

  function Points(corners: seq<Vec3>): seq<Vec3> {
    seq(|corners|, i requires 0 <= i < |corners| => BlenderToGltf(corners[i]))
  }

  function GltfBounds(corners: seq<Vec3>): Result<Bounds, NoGeometry> {
    var ps := Points(corners);
    if ps == [] then Err(NoGeometry)
    else
      var lo := Vec3(Min(Xs(ps)), Min(Ys(ps)), Min(Zs(ps)));
      var hi := Vec3(Max(Xs(ps)), Max(Ys(ps)), Max(Zs(ps)));
      Ok(Bounds(
        Vec3((lo.x + hi.x) * 0.5, (lo.y + hi.y) * 0.5, (lo.z + hi.z) * 0.5),
        Vec3(hi.x - lo.x, hi.y - lo.y, hi.z - lo.z)))
  }

  datatype Turn = Turn(x: Angle, y: Angle, z: Angle)

  datatype Crop = Crop(center: Vec3, size: Vec3, rotation: Turn)

  /** The whole model: centre 0, size 1, no rotation. */
  const DEFAULT_CROP := Crop(Vec3(0.0, 0.0, 0.0), Vec3(1.0, 1.0, 1.0), Turn(NO_TURN, NO_TURN, NO_TURN))

  function Floored(size: real): real {
    if size < MIN_CUTTER_SIZE then MIN_CUTTER_SIZE else size
  }

  function Scale(crop: Crop, b: Bounds): Vec3 {
    Vec3(Floored(b.size.x * crop.size.x), Floored(b.size.y * crop.size.y), Floored(b.size.z * crop.size.z))
  }

  function Location(crop: Crop, b: Bounds): Vec3 {
    Vec3(
      b.center.x + crop.center.x * b.size.x,
      b.center.y + crop.center.y * b.size.y,
      b.center.z + crop.center.z * b.size.z)
  }

  function Translation(t: Vec3): Matrix {
    Matrix(Row(1.0, 0.0, 0.0, t.x), Row(0.0, 1.0, 0.0, t.y), Row(0.0, 0.0, 1.0, t.z), LAST)
  }

  function Stretch(s: Vec3): Matrix {
    Matrix(Row(s.x, 0.0, 0.0, 0.0), Row(0.0, s.y, 0.0, 0.0), Row(0.0, 0.0, s.z, 0.0), LAST)
  }

  /** Euler order XYZ of three.js. */
  function EulerXyz(t: Turn): Matrix {
    MatMul(MatMul(Rotation(AxisX, t.x), Rotation(AxisY, t.y)), Rotation(AxisZ, t.z))
  }

  /** From the centred unit cube to the crop box in Blender's world. */
  function CutterMatrix(crop: Crop, b: Bounds): Matrix {
    MatMul(GLTF_TO_BLENDER,
      MatMul(Translation(Location(crop, b)), MatMul(EulerXyz(crop.rotation), Stretch(Scale(crop, b)))))
  }

  // ----- composition

  predicate Affine(m: Matrix) { m.d == LAST }

  /** A product the solver need not look into. */
  function Product(a: real, b: real): real { a * b }

  lemma ProductSum(k: real, a: real, b: real, c: real, d: real)
    ensures Product(k, a + b + c + d) == Product(k, a) + Product(k, b) + Product(k, c) + Product(k, d)
    ensures Product(a + b + c, k) == Product(a, k) + Product(b, k) + Product(c, k)
  {
    ProductPair(k, a + b + c, d);
    ProductPair(k, a + b, c);
    ProductPair(k, a, b);
    hide Product;
  }

  lemma ProductPair(k: real, a: real, b: real)
    ensures Product(k, a + b) == Product(k, a) + Product(k, b)
    ensures Product(a + b, k) == Product(a, k) + Product(b, k)
  {
  }

  lemma ProductMoves(a: real, b: real, c: real)
    ensures Product(a, Product(b, c)) == Product(Product(a, b), c)
  {
  }

  lemma RowAtSums(r: Row, p: Vec3)
    ensures RowAt(r, p) == Product(r.x, p.x) + Product(r.y, p.y) + Product(r.z, p.z) + r.w
  {
  }

  lemma RowTimesSums(r: Row, n: Matrix)
    requires Affine(n)
    ensures RowTimes(r, n) == Row(
      Product(r.x, n.a.x) + Product(r.y, n.b.x) + Product(r.z, n.c.x),
      Product(r.x, n.a.y) + Product(r.y, n.b.y) + Product(r.z, n.c.y),
      Product(r.x, n.a.z) + Product(r.y, n.b.z) + Product(r.z, n.c.z),
      Product(r.x, n.a.w) + Product(r.y, n.b.w) + Product(r.z, n.c.w) + r.w)
  {
  }

  lemma Distribute(k: real, r: Row, p: Vec3)
    ensures Product(k, RowAt(r, p)) ==
            Product(Product(k, r.x), p.x) + Product(Product(k, r.y), p.y) + Product(Product(k, r.z), p.z)
              + Product(k, r.w)
  {
    RowAtSums(r, p);
    hide Product, RowAt;
    ProductMoves(k, r.x, p.x);
    ProductMoves(k, r.y, p.y);
    ProductMoves(k, r.z, p.z);
    ProductSum(k, Product(r.x, p.x), Product(r.y, p.y), Product(r.z, p.z), r.w);
  }

  lemma RowComposes(r: Row, n: Matrix, p: Vec3)
    requires Affine(n)
    ensures RowAt(RowTimes(r, n), p) == RowAt(r, TransformPoint(n, p))
  {
    RowTimesSums(r, n);
    RowAtSums(RowTimes(r, n), p);
    RowAtSums(r, TransformPoint(n, p));
    hide Product, RowAt, RowTimes, Affine;
    Distribute(r.x, n.a, p);
    Distribute(r.y, n.b, p);
    Distribute(r.z, n.c, p);
    ProductSum(p.x, Product(r.x, n.a.x), Product(r.y, n.b.x), Product(r.z, n.c.x), 0.0);
    ProductSum(p.y, Product(r.x, n.a.y), Product(r.y, n.b.y), Product(r.z, n.c.y), 0.0);
    ProductSum(p.z, Product(r.x, n.a.z), Product(r.y, n.b.z), Product(r.z, n.c.z), 0.0);
  }

  lemma LastRow(n: Matrix)
    requires Affine(n)
    ensures RowTimes(LAST, n) == LAST
  {
  }

  /** Multiplying affine matrices is composing their transformations, and gives an affine matrix. */
  lemma MatMulComposes(m: Matrix, n: Matrix, p: Vec3)
    requires Affine(n)
    ensures TransformPoint(MatMul(m, n), p) == TransformPoint(m, TransformPoint(n, p))
    ensures Affine(m) ==> Affine(MatMul(m, n))
  {
    RowComposes(m.a, n, p);
    RowComposes(m.b, n, p);
    RowComposes(m.c, n, p);
    LastRow(n);
    hide RowAt, RowTimes;
  }

  /** The axis change of the glTF importer and blender_to_gltf undo each other. */
  lemma AxisChangeInverts(p: Vec3)
    ensures BlenderToGltf(TransformPoint(GLTF_TO_BLENDER, p)) == p
    ensures TransformPoint(GLTF_TO_BLENDER, BlenderToGltf(p)) == p
    ensures TransformPoint(GLTF_TO_BLENDER, p) == Vec3(p.x, -p.z, p.y)
  {
  }

  /** Where the cutter puts a point of the unit cube: stretched, turned about x, y and z in that matrix order, moved
      and carried over to Blender's axes. */
  function Turned(t: Turn, p: Vec3): Vec3 {
    TransformPoint(Rotation(AxisX, t.x), TransformPoint(Rotation(AxisY, t.y), TransformPoint(Rotation(AxisZ, t.z), p)))
  }

  lemma EulerTurns(t: Turn, p: Vec3)
    ensures TransformPoint(EulerXyz(t), p) == Turned(t, p)
    ensures Affine(EulerXyz(t))
  {
    var x, y, z := Rotation(AxisX, t.x), Rotation(AxisY, t.y), Rotation(AxisZ, t.z);
    assert Affine(x) && Affine(y) && Affine(z);
    hide MatMul, TransformPoint, Rotation;
    MatMulComposes(x, y, TransformPoint(z, p));
    MatMulComposes(MatMul(x, y), z, p);
  }

  lemma CutterPlaces(crop: Crop, b: Bounds, p: Vec3)
    ensures TransformPoint(CutterMatrix(crop, b), p) ==
            TransformPoint(GLTF_TO_BLENDER,
              TransformPoint(Translation(Location(crop, b)),
                Turned(crop.rotation, TransformPoint(Stretch(Scale(crop, b)), p))))
  {
    var stretch, move, turn := Stretch(Scale(crop, b)), Translation(Location(crop, b)), EulerXyz(crop.rotation);
    assert Affine(stretch) && Affine(move) && Affine(GLTF_TO_BLENDER);
    EulerTurns(crop.rotation, TransformPoint(stretch, p));
    hide MatMul, TransformPoint, EulerXyz, Stretch, Translation, Affine, Turned, Location, Scale;
    MatMulComposes(turn, stretch, p);
    MatMulComposes(move, MatMul(turn, stretch), p);
    MatMulComposes(GLTF_TO_BLENDER, MatMul(move, MatMul(turn, stretch)), p);
  }

  // ----- the closed form of the decal script

  /** The decal script writes the same rotation out: a, b, c, d, e, f are the cosines and sines in x, y, z. */
  function ThreeEulerXyzMatrix(t: Turn): Matrix {
    var a, b := t.x.cos, t.x.sin;
    var c, d := t.y.cos, t.y.sin;
    var e, f := t.z.cos, t.z.sin;
    Matrix(
      Row(c * e, -c * f, d, 0.0),
      Row(a * f + b * d * e, a * e - b * d * f, -b * c, 0.0),
      Row(b * f - a * d * e, b * e + a * d * f, a * c, 0.0),
      LAST)
  }

  /** For all angles the closed form is Rx Ry Rz as the crop maths builds it, so both place every point alike. */
  lemma ClosedFormIsProduct(t: Turn)
    ensures ThreeEulerXyzMatrix(t) == EulerXyz(t)
  {
    var xy := MatMul(Rotation(AxisX, t.x), Rotation(AxisY, t.y));
    var a, b, c, d := t.x.cos, t.x.sin, t.y.cos, t.y.sin;
    assert xy == Matrix(
      Row(c, 0.0, d, 0.0),
      Row(b * d, a, -(b * c), 0.0),
      Row(-(a * d), b, a * c, 0.0),
      LAST) by {
      assert (-b) * (-d) == b * d && (-b) * c == -(b * c) && a * (-d) == -(a * d);
    }
    ClosedFormRows(t);
  }

  lemma ClosedFormRows(t: Turn)
    ensures var a, b, c, d := t.x.cos, t.x.sin, t.y.cos, t.y.sin;
            var m := MatMul(Matrix(
              Row(c, 0.0, d, 0.0), Row(b * d, a, -(b * c), 0.0), Row(-(a * d), b, a * c, 0.0), LAST),
                            Rotation(AxisZ, t.z));
            m == ThreeEulerXyzMatrix(t)
  {
    var a, b, c, d, e, f := t.x.cos, t.x.sin, t.y.cos, t.y.sin, t.z.cos, t.z.sin;
    assert c * (-f) == -c * f;
    assert (b * d) * (-f) == -(b * d * f);
    assert (-(a * d)) * e == -(a * d * e);
    assert (-(a * d)) * (-f) == a * d * f;
    assert -(b * c) == -b * c;
  }

  /** The decal script turns by a quarter about x where the crop maths names the axis change. */
  const QUARTER_TURN := Rotation(AxisX, Angle(0.0, 1.0))

  lemma QuarterTurnIsAxisChange()
    ensures QUARTER_TURN == GLTF_TO_BLENDER
  {
  }

  /** Where the decal script puts a point of a decal: turned by its rotation matrix, and moved by its location. */
  function DecalPlaced(position: Vec3, t: Turn, p: Vec3): Vec3 {
    var turned := TransformPoint(MatMul(QUARTER_TURN, ThreeEulerXyzMatrix(t)), p);
    var location := TransformPoint(QUARTER_TURN, position);
    Vec3(turned.x + location.x, turned.y + location.y, turned.z + location.z)
  }

  /** Both conventions place every point identically, up to the axis change they share. */
  lemma DecalPlacedAsCrop(position: Vec3, t: Turn, p: Vec3)
    ensures DecalPlaced(position, t, p) ==
            TransformPoint(GLTF_TO_BLENDER, TransformPoint(Translation(position), Turned(t, p)))
  {
    QuarterTurnIsAxisChange();
    ClosedFormIsProduct(t);
    EulerTurns(t, p);
    hide EulerXyz, ThreeEulerXyzMatrix, Turned;
    MatMulComposes(GLTF_TO_BLENDER, EulerXyz(t), p);
    AxisChangeAdds(position, Turned(t, p));
    hide TransformPoint, MatMul, Translation;
  }

  lemma AxisChangeAdds(u: Vec3, v: Vec3)
    ensures var a, b := TransformPoint(GLTF_TO_BLENDER, u), TransformPoint(GLTF_TO_BLENDER, v);
            TransformPoint(GLTF_TO_BLENDER, TransformPoint(Translation(u), v)) == Vec3(b.x + a.x, b.y + a.y, b.z + a.z)
  {
  }

  // ----- the default crop

  predicate InUnitCube(p: Vec3) {
    -0.5 <= p.x <= 0.5 && -0.5 <= p.y <= 0.5 && -0.5 <= p.z <= 0.5
  }

  /** One coordinate of the preimage under centring and stretching. */
  function Coordinate(v: real, center: real, size: real): real {
    (v - center) / Floored(size)
  }

  function BoxCoordinate(center: real, size: real, q: real): real {
    center + Floored(size) * q
  }

  lemma Preimage(lo: real, hi: real, v: real)
    requires lo <= v <= hi
    ensures var center := (lo + hi) * 0.5;
            var q := Coordinate(v, center, hi - lo);
            -0.5 <= q <= 0.5 && BoxCoordinate(center, hi - lo, q) == v
  {
    var size := Floored(hi - lo);
    var q := (v - (lo + hi) * 0.5) / size;
    assert q * size == v - (lo + hi) * 0.5;
    if q > 0.5 {
      Times(0.5, q, size);
      assert false;
    }
    if q < -0.5 {
      Times(q, -0.5, size);
      assert false;
    }
  }

  lemma Times(a: real, b: real, k: real)
    requires a < b && k > 0.0
    ensures a * k < b * k
  {
  }

  lemma NoTurnTurnsNothing(p: Vec3)
    ensures Turned(DEFAULT_CROP.rotation, p) == p
  {
  }

  function PreimageOf(b: Bounds, g: Vec3): Vec3 {
    Vec3(Coordinate(g.x, b.center.x, b.size.x), Coordinate(g.y, b.center.y, b.size.y),
      Coordinate(g.z, b.center.z, b.size.z))
  }

  /** Centred and stretched by the floored sizes. */
  function BoxPoint(b: Bounds, q: Vec3): Vec3 {
    Vec3(BoxCoordinate(b.center.x, b.size.x, q.x), BoxCoordinate(b.center.y, b.size.y, q.y),
      BoxCoordinate(b.center.z, b.size.z, q.z))
  }

  lemma BoundsHoldCorner(corners: seq<Vec3>, i: nat)
    requires i < |corners|
    ensures GltfBounds(corners).Ok?
    ensures var b := GltfBounds(corners).value;
            var g := BlenderToGltf(corners[i]);
            InUnitCube(PreimageOf(b, g)) && BoxPoint(b, PreimageOf(b, g)) == g
  {
    var ps := Points(corners);
    assert ps[i] == BlenderToGltf(corners[i]);
    MinMaxBound(Xs(ps), i);
    MinMaxBound(Ys(ps), i);
    MinMaxBound(Zs(ps), i);
    hide Min, Max, Coordinate, BoxCoordinate;
    Preimage(Min(Xs(ps)), Max(Xs(ps)), ps[i].x);
    Preimage(Min(Ys(ps)), Max(Ys(ps)), ps[i].y);
    Preimage(Min(Zs(ps)), Max(Zs(ps)), ps[i].z);
  }

  lemma DefaultCutter(b: Bounds, q: Vec3)
    ensures TransformPoint(CutterMatrix(DEFAULT_CROP, b), q) == TransformPoint(GLTF_TO_BLENDER, BoxPoint(b, q))
  {
    CutterPlaces(DEFAULT_CROP, b, q);
    NoTurnTurnsNothing(TransformPoint(Stretch(Scale(DEFAULT_CROP, b)), q));
    hide CutterMatrix, Turned, Floored;
  }

  /** The default crop box contains every corner of the model: each is the image of a point of the unit cube. */
  lemma DefaultCropEnclosesModel(corners: seq<Vec3>, i: nat)
    requires i < |corners|
    ensures GltfBounds(corners).Ok?
    ensures var cutter := CutterMatrix(DEFAULT_CROP, GltfBounds(corners).value);
            exists q :: InUnitCube(q) && TransformPoint(cutter, q) == corners[i]
  {
    BoundsHoldCorner(corners, i);
    hide *;
    var b := GltfBounds(corners).value;
    var q := PreimageOf(b, BlenderToGltf(corners[i]));
    DefaultCutter(b, q);
    AxisChangeInverts(corners[i]);
    assert InUnitCube(q) && TransformPoint(CutterMatrix(DEFAULT_CROP, b), q) == corners[i];
  }

  // ----- any rotation

  function Dot(u: Vec3, v: Vec3): real { u.x * v.x + u.y * v.y + u.z * v.z }

  function Minus(u: Vec3, v: Vec3): Vec3 { Vec3(u.x - v.x, u.y - v.y, u.z - v.z) }

  const ORIGIN := Vec3(0.0, 0.0, 0.0)

  /** The linear part of an affine map: how it moves a vector rather than a point. */
  function Linear(m: Matrix, v: Vec3): Vec3 {
    Minus(TransformPoint(m, v), TransformPoint(m, ORIGIN))
  }

  lemma PlaneTurnKeepsDot(a: Angle, p: real, q: real, x: real, y: real)
    requires OnCircle(a)
    ensures (a.cos * p - a.sin * q) * (a.cos * x - a.sin * y) + (a.sin * p + a.cos * q) * (a.sin * x + a.cos * y) ==
            p * x + q * y
  {
    var c, s := a.cos, a.sin;
    assert (c * p - s * q) * (c * x - s * y) + (s * p + c * q) * (s * x + c * y) == (c * c + s * s) * (p * x + q * y);
  }

  lemma AxisTurnKeepsDot(axis: Axis, a: Angle, u: Vec3, v: Vec3)
    requires OnCircle(a)
    ensures Dot(TransformPoint(Rotation(axis, a), u), TransformPoint(Rotation(axis, a), v)) == Dot(u, v)
  {
    match axis
    case AxisX => PlaneTurnKeepsDot(a, u.y, u.z, v.y, v.z);
    case AxisY => PlaneTurnKeepsDot(a, u.z, u.x, v.z, v.x);
    case AxisZ => PlaneTurnKeepsDot(a, u.x, u.y, v.x, v.y);
  }

  ghost predicate RealTurn(t: Turn) { OnCircle(t.x) && OnCircle(t.y) && OnCircle(t.z) }

  lemma TurnKeepsDot(t: Turn, u: Vec3, v: Vec3)
    requires RealTurn(t)
    ensures Dot(Turned(t, u), Turned(t, v)) == Dot(u, v)
  {
    hide TransformPoint, Rotation, Dot, OnCircle;
    var x, y, z := Rotation(AxisX, t.x), Rotation(AxisY, t.y), Rotation(AxisZ, t.z);
    AxisTurnKeepsDot(AxisZ, t.z, u, v);
    AxisTurnKeepsDot(AxisY, t.y, TransformPoint(z, u), TransformPoint(z, v));
    AxisTurnKeepsDot(AxisX, t.x, TransformPoint(y, TransformPoint(z, u)), TransformPoint(y, TransformPoint(z, v)));
  }

  function Stretched(s: Vec3, v: Vec3): Vec3 { Vec3(s.x * v.x, s.y * v.y, s.z * v.z) }

  lemma AxisFixesOrigin(axis: Axis, a: Angle)
    ensures TransformPoint(Rotation(axis, a), ORIGIN) == ORIGIN
  {
  }

  lemma TurnFixesOrigin(t: Turn)
    ensures Turned(t, ORIGIN) == ORIGIN
  {
    AxisFixesOrigin(AxisX, t.x);
    AxisFixesOrigin(AxisY, t.y);
    AxisFixesOrigin(AxisZ, t.z);
    hide TransformPoint, Rotation;
  }

  lemma MoveAndSwap(t: Vec3, p: Vec3)
    ensures Minus(TransformPoint(GLTF_TO_BLENDER, TransformPoint(Translation(t), p)),
                  TransformPoint(GLTF_TO_BLENDER, TransformPoint(Translation(t), ORIGIN))) == Vec3(p.x, -p.z, p.y)
  {
  }

  lemma CutterLinear(crop: Crop, b: Bounds, v: Vec3)
    ensures var r := Turned(crop.rotation, Stretched(Scale(crop, b), v));
            Linear(CutterMatrix(crop, b), v) == Vec3(r.x, -r.z, r.y)
  {
    CutterPlaces(crop, b, v);
    CutterPlaces(crop, b, ORIGIN);
    assert TransformPoint(Stretch(Scale(crop, b)), v) == Stretched(Scale(crop, b), v);
    assert TransformPoint(Stretch(Scale(crop, b)), ORIGIN) == ORIGIN;
    TurnFixesOrigin(crop.rotation);
    hide CutterMatrix, Turned, Stretch, Stretched, TransformPoint, Translation, Location, Scale;
    MoveAndSwap(Location(crop, b), Turned(crop.rotation, Stretched(Scale(crop, b), v)));
  }

  /** The cutter keeps angles and lengths up to the floored sizes of the box, for every rotation. */
  lemma CutterKeepsDot(crop: Crop, b: Bounds, u: Vec3, v: Vec3)
    requires RealTurn(crop.rotation)
    ensures Dot(Linear(CutterMatrix(crop, b), u), Linear(CutterMatrix(crop, b), v)) ==
            Dot(Stretched(Scale(crop, b), u), Stretched(Scale(crop, b), v))
  {
    CutterLinear(crop, b, u);
    CutterLinear(crop, b, v);
    var s := Scale(crop, b);
    TurnKeepsDot(crop.rotation, Stretched(s, u), Stretched(s, v));
    var p, q := Turned(crop.rotation, Stretched(s, u)), Turned(crop.rotation, Stretched(s, v));
    hide Linear, CutterMatrix, Turned, Stretched, Scale, RealTurn;
    SwapKeepsDot(p, q);
  }

  lemma SwapKeepsDot(p: Vec3, q: Vec3)
    ensures Dot(Vec3(p.x, -p.z, p.y), Vec3(q.x, -q.z, q.y)) == Dot(p, q)
  {
    assert (-p.z) * (-q.z) == p.z * q.z;
  }

  /** The columns of the cutter's linear part: the images of the unit vectors. */
  function Column(m: Matrix, axis: Axis): Vec3 {
    match axis
    case AxisX => Vec3(m.a.x, m.b.x, m.c.x)
    case AxisY => Vec3(m.a.y, m.b.y, m.c.y)
    case AxisZ => Vec3(m.a.z, m.b.z, m.c.z)
  }

  function UnitVector(axis: Axis): Vec3 {
    match axis
    case AxisX => Vec3(1.0, 0.0, 0.0)
    case AxisY => Vec3(0.0, 1.0, 0.0)
    case AxisZ => Vec3(0.0, 0.0, 1.0)
  }

  function Along(v: Vec3, axis: Axis): real {
    match axis
    case AxisX => v.x
    case AxisY => v.y
    case AxisZ => v.z
  }

  lemma ColumnIsImage(m: Matrix, axis: Axis)
    ensures Column(m, axis) == Linear(m, UnitVector(axis))
  {
  }

  /** For every crop and rotation the cutter is a box: its columns are pairwise orthogonal and as long as the
      floored sizes, none of which is zero. */
  lemma CutterIsABox(crop: Crop, b: Bounds, i: Axis, j: Axis)
    requires RealTurn(crop.rotation)
    ensures var m := CutterMatrix(crop, b);
            var size := Along(Scale(crop, b), i);
            && size >= MIN_CUTTER_SIZE
            && Dot(Column(m, i), Column(m, j)) == if i == j then size * size else 0.0
  {
    hide *;
    var m := CutterMatrix(crop, b);
    ColumnIsImage(m, i);
    ColumnIsImage(m, j);
    CutterKeepsDot(crop, b, UnitVector(i), UnitVector(j));
    StretchedUnits(Scale(crop, b), i, j);
    ScaleIsFloored(crop, b, i);
  }

  lemma ScaleIsFloored(crop: Crop, b: Bounds, axis: Axis)
    ensures Along(Scale(crop, b), axis) >= MIN_CUTTER_SIZE
  {
  }

  lemma StretchedUnits(s: Vec3, i: Axis, j: Axis)
    ensures Dot(Stretched(s, UnitVector(i)), Stretched(s, UnitVector(j))) ==
            if i == j then Along(s, i) * Along(s, i) else 0.0
  {
  }

  // ----- where the box lies, in numbers

  /** A turn about an axis leaves that axis and turns the next one towards the one after it. */
  lemma RotationIs(a: Angle, p: Vec3)
    ensures TransformPoint(Rotation(AxisX, a), p) == Vec3(p.x, a.cos * p.y - a.sin * p.z, a.sin * p.y + a.cos * p.z)
    ensures TransformPoint(Rotation(AxisY, a), p) == Vec3(a.cos * p.x + a.sin * p.z, p.y, a.cos * p.z - a.sin * p.x)
    ensures TransformPoint(Rotation(AxisZ, a), p) == Vec3(a.cos * p.x - a.sin * p.y, a.sin * p.x + a.cos * p.y, p.z)
  {
    assert (-a.sin) * p.x == -(a.sin * p.x) && (-a.sin) * p.y == -(a.sin * p.y) && (-a.sin) * p.z == -(a.sin * p.z);
  }

  /** A quarter turn about x takes y to z, about y takes z to x, about z takes x to y. */
  lemma QuarterTurns()
    ensures var quarter := Angle(0.0, 1.0);
            && TransformPoint(Rotation(AxisX, quarter), UnitVector(AxisY)) == UnitVector(AxisZ)
            && TransformPoint(Rotation(AxisY, quarter), UnitVector(AxisZ)) == UnitVector(AxisX)
            && TransformPoint(Rotation(AxisZ, quarter), UnitVector(AxisX)) == UnitVector(AxisY)
  {
    hide TransformPoint, Rotation;
    RotationIs(Angle(0.0, 1.0), UnitVector(AxisX));
    RotationIs(Angle(0.0, 1.0), UnitVector(AxisY));
    RotationIs(Angle(0.0, 1.0), UnitVector(AxisZ));
  }

  /** A side of the box: the share of the model's side, but never less than a millionth. */
  lemma ScaleIs(crop: Crop, b: Bounds)
    ensures var s := Scale(crop, b);
            && (s.x == b.size.x * crop.size.x || (s.x == 0.000001 && b.size.x * crop.size.x < 0.000001))
            && (s.y == b.size.y * crop.size.y || (s.y == 0.000001 && b.size.y * crop.size.y < 0.000001))
            && (s.z == b.size.z * crop.size.z || (s.z == 0.000001 && b.size.z * crop.size.z < 0.000001))
            && s.x >= 0.000001 && s.y >= 0.000001 && s.z >= 0.000001
  {
  }

  function Plus(u: Vec3, v: Vec3): Vec3 { Vec3(u.x + v.x, u.y + v.y, u.z + v.z) }

  lemma Moves(t: Vec3, p: Vec3)
    ensures TransformPoint(Translation(t), p) == Plus(t, p)
  {
  }

  lemma StretchIs(s: Vec3, q: Vec3)
    ensures TransformPoint(Stretch(s), q) == Stretched(s, q)
    ensures Stretched(s, ORIGIN) == ORIGIN
  {
  }

  lemma BoxPointMoved(crop: Crop, b: Bounds, q: Vec3)
    ensures BlenderToGltf(TransformPoint(CutterMatrix(crop, b), q)) ==
            Plus(Location(crop, b), Turned(crop.rotation, Stretched(Scale(crop, b), q)))
  {
    hide *;
    CutterPlaces(crop, b, q);
    StretchIs(Scale(crop, b), q);
    var t := Turned(crop.rotation, Stretched(Scale(crop, b), q));
    Moves(Location(crop, b), t);
    AxisChangeInverts(TransformPoint(Translation(Location(crop, b)), t));
  }

  /** In glTF's axes the box is the stretched and turned unit cube about the model's centre, moved by the crop's centre
      in shares of the model's sides. */
  lemma BoxPointIs(crop: Crop, b: Bounds, q: Vec3)
    ensures var g := BlenderToGltf(TransformPoint(CutterMatrix(crop, b), q));
            var t := Turned(crop.rotation, Stretched(Scale(crop, b), q));
            && g.x == b.center.x + crop.center.x * b.size.x + t.x
            && g.y == b.center.y + crop.center.y * b.size.y + t.y
            && g.z == b.center.z + crop.center.z * b.size.z + t.z
  {
    hide CutterMatrix, Turned, Stretched, TransformPoint, Scale, BlenderToGltf;
    BoxPointMoved(crop, b, q);
  }

  /** Whatever the rotation, the centre of the box lies where the crop puts it. */
  lemma BoxCentreIs(crop: Crop, b: Bounds)
    ensures var g := BlenderToGltf(TransformPoint(CutterMatrix(crop, b), Vec3(0.0, 0.0, 0.0)));
            && g.x == b.center.x + crop.center.x * b.size.x
            && g.y == b.center.y + crop.center.y * b.size.y
            && g.z == b.center.z + crop.center.z * b.size.z
  {
    hide CutterMatrix, Turned, Stretched, TransformPoint, Scale, BlenderToGltf;
    BoxPointIs(crop, b, ORIGIN);
    StretchIs(Scale(crop, b), ORIGIN);
    TurnFixesOrigin(crop.rotation);
  }

  /** Without rotation each face lies half a side from that centre: its points are those with a coordinate of a half. */
  lemma FacesAre(crop: Crop, b: Bounds, q: Vec3)
    requires crop.rotation == Turn(Angle(1.0, 0.0), Angle(1.0, 0.0), Angle(1.0, 0.0))
    ensures var g, s := BlenderToGltf(TransformPoint(CutterMatrix(crop, b), q)), Scale(crop, b);
            && g.x == b.center.x + crop.center.x * b.size.x + s.x * q.x
            && g.y == b.center.y + crop.center.y * b.size.y + s.y * q.y
            && g.z == b.center.z + crop.center.z * b.size.z + s.z * q.z
  {
    hide CutterMatrix, Turned, TransformPoint, Scale, BlenderToGltf;
    BoxPointIs(crop, b, q);
    NoTurnTurnsNothing(Stretched(Scale(crop, b), q));
  }

  // ----- the bounds are tight

  ghost predicate SpanOf(values: seq<real>, center: real, size: real) {
    && (forall v <- values :: center - size * 0.5 <= v <= center + size * 0.5)
    && (exists v <- values :: v == center - size * 0.5)
    && (exists v <- values :: v == center + size * 0.5)
  }

  lemma SpanIs(values: seq<real>)
    requires values != []
    ensures SpanOf(values, (Min(values) + Max(values)) * 0.5, Max(values) - Min(values))
  {
    var lo, hi := MinMaxAttained(values);
    assert values[lo] in values && values[hi] in values;
    forall v <- values ensures Min(values) <= v <= Max(values) {
      var i :| 0 <= i < |values| && values[i] == v;
      MinMaxBound(values, i);
    }
    hide Min, Max;
  }

  lemma PointsAre(corners: seq<Vec3>)
    ensures Xs(Points(corners)) == seq(|corners|, i requires 0 <= i < |corners| => corners[i].x)
    ensures Ys(Points(corners)) == seq(|corners|, i requires 0 <= i < |corners| => corners[i].z)
    ensures Zs(Points(corners)) == seq(|corners|, i requires 0 <= i < |corners| => -corners[i].y)
  {
  }

  /** A model with corners has bounds, and along each axis some corner lies on either side of them and none beyond. */
  lemma BoundsAreTight(corners: seq<Vec3>)
    ensures GltfBounds(corners).Ok? <==> corners != []
    ensures corners != [] ==>
              var b := GltfBounds(corners).value;
              && SpanOf(seq(|corners|, i requires 0 <= i < |corners| => corners[i].x), b.center.x, b.size.x)
              && SpanOf(seq(|corners|, i requires 0 <= i < |corners| => corners[i].z), b.center.y, b.size.y)
              && SpanOf(seq(|corners|, i requires 0 <= i < |corners| => -corners[i].y), b.center.z, b.size.z)
  {
    if corners != [] {
      var ps := Points(corners);
      SpanIs(Xs(ps));
      SpanIs(Ys(ps));
      SpanIs(Zs(ps));
      PointsAre(corners);
      hide Min, Max, SpanOf, Points, Xs, Ys, Zs;
    }
  }
}
