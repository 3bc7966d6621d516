/** Points, 3x3 matrices and affine transforms over exact reals.
    The registration code works on `Point_f` (three floats), `glm::mat3`
    and `glm::mat4`; here they are values over `real`. */
module Geometry {

  datatype Point = Point(x: real, y: real, z: real)

  const Zero: Point := Point(0.0, 0.0, 0.0)

  function Add(a: Point, b: Point): Point {
    Point(a.x + b.x, a.y + b.y, a.z + b.z)
  }

  function Sub(a: Point, b: Point): Point {
    Point(a.x - b.x, a.y - b.y, a.z - b.z)
  }

  function Scale(p: Point, s: real): Point {
    Point(p.x * s, p.y * s, p.z * s)
  }

  function Dot(a: Point, b: Point): real {
    Mul(a.x, b.x) + Mul(a.y, b.y) + Mul(a.z, b.z)
  }

  /** Real product, kept behind a function so that squares `Mul(v, v)` are reasoned
      about through the lemmas below. */
  function Mul(a: real, b: real): real {
    a * b
  }

  lemma MulPositive(a: real, b: real)
    requires a > 0.0 && b > 0.0
    ensures Mul(a, b) > 0.0
  {
  }

  lemma SquarePositive(v: real)
    ensures Mul(v, v) >= 0.0
    ensures v != 0.0 ==> Mul(v, v) > 0.0
  {
    if v > 0.0 {
      MulPositive(v, v);
    } else if v < 0.0 {
      MulPositive(-v, -v);
    }
  }

  /** Sum of the squares of some coordinates: zero exactly when every coordinate is. */
  function SumOfSquares(v: seq<real>): (r: real)
    ensures r >= 0.0
    ensures r == 0.0 <==> forall i | 0 <= i < |v| :: v[i] == 0.0
  {
    if |v| == 0 then 0.0
    else
      var last := v[|v| - 1];
      SquarePositive(last);
      SumOfSquares(v[..|v| - 1]) + Mul(last, last)
  }

  /** Squared Euclidean length; equal to `Length() * Length()` in exact arithmetic. */
  function LengthSquared(p: Point): (r: real)
    ensures r >= 0.0
    ensures r == 0.0 <==> p == Zero
  {
    var coordinates := [p.x, p.y, p.z];
    assert coordinates[0] == p.x && coordinates[1] == p.y && coordinates[2] == p.z;
    SumOfSquares(coordinates)
  }

  /** Coordinate `row` of a point (Eigen's `cloud[i][row]`). */
  function Coord(p: Point, row: int): real
    requires 0 <= row < 3
  {
    if row == 0 then p.x else if row == 1 then p.y else p.z
  }

  /** A 3x3 matrix, stored by rows. */
  datatype Mat3 = Mat3(r0: Point, r1: Point, r2: Point)

  const Identity: Mat3 := Mat3(Point(1.0, 0.0, 0.0), Point(0.0, 1.0, 0.0), Point(0.0, 0.0, 1.0))

  function MulVec(m: Mat3, p: Point): Point {
    Point(Dot(m.r0, p), Dot(m.r1, p), Dot(m.r2, p))
  }

  function ScaleMat(s: real, m: Mat3): Mat3 {
    Mat3(Scale(m.r0, s), Scale(m.r1, s), Scale(m.r2, s))
  }

  /** An affine map `p |-> linear * p + translation` (the upper 3x4 block of a `glm::mat4`,
      or the `(scale * rotation, translation)` pair the engines return). */
  datatype Transform = Transform(linear: Mat3, translation: Point)

  const IdentityTransform: Transform := Transform(Identity, Zero)

  function TransformPoint(t: Transform, p: Point): Point {
    Add(MulVec(t.linear, p), t.translation)
  }

  /** `GetTransformedCloud`: every point mapped through the transform, order kept. */
  function TransformedCloud(cloud: seq<Point>, t: Transform): (r: seq<Point>)
    ensures |r| == |cloud|
    ensures forall i | 0 <= i < |r| :: r[i] == TransformPoint(t, cloud[i])
  {
    seq(|cloud|, i requires 0 <= i < |cloud| => TransformPoint(t, cloud[i]))
  }

  /** Left-to-right sum of the points of a cloud (`std::accumulate` from `Zero`). */
  function SumPoints(cloud: seq<Point>): Point {
    if |cloud| == 0 then Zero else Add(SumPoints(cloud[..|cloud| - 1]), cloud[|cloud| - 1])
  }

  /** Left-to-right sum of a sequence of reals. */
  function SumReals(s: seq<real>): real {
    if |s| == 0 then 0.0 else SumReals(s[..|s| - 1]) + s[|s| - 1]
  }

  lemma {:induction false} SumRealsNonNegative(s: seq<real>)
    requires forall i | 0 <= i < |s| :: s[i] >= 0.0
    ensures SumReals(s) >= 0.0
  {
    if |s| > 0 {
      SumRealsNonNegative(s[..|s| - 1]);
    }
  }

  /** Scaling a matrix scales every image. */
  lemma ScaledMatrixImage(s: real, m: Mat3, p: Point)
    ensures MulVec(ScaleMat(s, m), p) == Scale(MulVec(m, p), s)
  {
    var scaled, v := ScaleMat(s, m), MulVec(m, p);
    ScaledRowImage(s, m.r0, p, scaled.r0, MulVec(scaled, p).x, v.x);
    ScaledRowImage(s, m.r1, p, scaled.r1, MulVec(scaled, p).y, v.y);
    ScaledRowImage(s, m.r2, p, scaled.r2, MulVec(scaled, p).z, v.z);
  }

  /** One row of `ScaledMatrixImage`: the scaled row's image is the row's image, scaled. */
  lemma ScaledRowImage(s: real, row: Point, p: Point, scaledRow: Point, image: real, unscaled: real)
    requires scaledRow == Scale(row, s) && image == Dot(scaledRow, p) && unscaled == Dot(row, p)
    ensures image == unscaled * s
  {
    ScaledDot(row, p, s);
  }

  lemma ScaledDot(a: Point, b: Point, s: real)
    ensures Dot(Scale(a, s), b) == Dot(a, b) * s
  {
    var x, y, z := Mul(a.x, b.x), Mul(a.y, b.y), Mul(a.z, b.z);
    ScaledProduct(a.x, b.x, s);
    ScaledProduct(a.y, b.y, s);
    ScaledProduct(a.z, b.z, s);
    assert Scale(a, s) == Point(a.x * s, a.y * s, a.z * s);
    assert Dot(Scale(a, s), b) == x * s + y * s + z * s;
    assert (x + y + z) * s == x * s + y * s + z * s;
  }

  lemma ScaledProduct(u: real, v: real, s: real)
    ensures Mul(u * s, v) == Mul(u, v) * s
  {
    assert (u * s) * v == (u * v) * s;
  }
}
