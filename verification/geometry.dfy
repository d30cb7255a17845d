/**
 * Points, the two rotation matrices of the tilings, and vertex means.
 *
 * The tilings build their rotation matrices with `rot_matrix(theta)` for
 * theta = pi/3 and 2 pi/3 only, and start from offsets such as
 * (0.5, 0.5 / sqrt 3).  Every point they compute therefore has a rational x
 * coordinate and a y coordinate that is a rational multiple of sqrt 3, so a
 * point is stored exactly as two rationals and the floating-point
 * trigonometry becomes exact arithmetic.
 */
module Geometry {

  /** The point (x, ys * sqrt 3). */
  datatype Point = Point(x: real, ys: real)

  const Origin: Point := Point(0.0, 0.0)

  function Add(p: Point, q: Point): Point { Point(p.x + q.x, p.ys + q.ys) }

  function Sub(p: Point, q: Point): Point { Point(p.x - q.x, p.ys - q.ys) }

  /** Adding a vector and taking it away again. */
  lemma SubAdd(p: Point, v: Point)
    ensures Sub(Add(p, v), p) == v
  {
  }

  /** The vector k * p for a rational factor k. */
  function Mul(k: real, p: Point): Point { Point(k * p.x, k * p.ys) }

  /** A factor distributes over a sum. */
  lemma MulAdd(k: real, p: Point, q: Point)
    ensures Mul(k, Add(p, q)) == Add(Mul(k, p), Mul(k, q))
  {
    assert k * (p.x + q.x) == k * p.x + k * q.x;
    assert k * (p.ys + q.ys) == k * p.ys + k * q.ys;
  }

  /** The two angles the program builds rotation matrices for. */
  datatype Angle = Sixty | OneTwenty

  /**
   * `rot_matrix(theta) @ p`, the matrix [[cos, -sin], [sin, cos]] applied to p,
   * for theta = pi/3 (cos 1/2, sin sqrt3/2) and theta = 2 pi/3 (cos -1/2,
   * sin sqrt3/2).  With y = ys * sqrt3, the new x is cos x - sin ys sqrt3 and
   * the new y / sqrt3 is (sin / sqrt3) x + cos ys.
   */
  function RotMatrix(a: Angle, p: Point): Point
  {
    match a
    case Sixty => Point(0.5 * p.x - 1.5 * p.ys, 0.5 * p.x + 0.5 * p.ys)
    case OneTwenty => Point(-0.5 * p.x - 1.5 * p.ys, 0.5 * p.x - 0.5 * p.ys)
  }

  /** numpy's `matrix_power(rot_matrix(theta), n) @ p`: the rotation applied n times. */
  function MatrixPower(a: Angle, n: nat, p: Point): Point
  {
    if n == 0 then p else RotMatrix(a, MatrixPower(a, n - 1, p))
  }

  /** The squared distance from the origin: x^2 + (ys sqrt3)^2. */
  function Norm(p: Point): real
  {
    p.x * p.x + 3.0 * p.ys * p.ys
  }

  /** Both matrices are rotations: they keep the distance from the origin. */
  lemma RotMatrixNorm(a: Angle, p: Point)
    ensures Norm(RotMatrix(a, p)) == Norm(p)
  {
    var x, y := p.x, p.ys;
    match a
    case Sixty =>
      assert (0.5 * x - 1.5 * y) * (0.5 * x - 1.5 * y) == 0.25 * x * x - 1.5 * x * y + 2.25 * y * y;
      assert (0.5 * x + 0.5 * y) * (0.5 * x + 0.5 * y) == 0.25 * x * x + 0.5 * x * y + 0.25 * y * y;
    case OneTwenty =>
      assert (-0.5 * x - 1.5 * y) * (-0.5 * x - 1.5 * y) == 0.25 * x * x + 1.5 * x * y + 2.25 * y * y;
      assert (0.5 * x - 0.5 * y) * (0.5 * x - 0.5 * y) == 0.25 * x * x - 0.5 * x * y + 0.25 * y * y;
  }

  /** Any power of a rotation keeps the distance from the origin. */
  lemma {:induction false} MatrixPowerNorm(a: Angle, n: nat, p: Point)
    ensures Norm(MatrixPower(a, n, p)) == Norm(p)
  {
    if n > 0 {
      MatrixPowerNorm(a, n - 1, p);
      RotMatrixNorm(a, MatrixPower(a, n - 1, p));
    }
  }

  /** A 120-degree turn is two 60-degree turns. */
  lemma OneTwentyTwice(p: Point)
    ensures RotMatrix(OneTwenty, p) == RotMatrix(Sixty, RotMatrix(Sixty, p))
  {
  }

  /** Three 60-degree turns are the half turn p -> -p. */
  lemma SixtyThreeTimes(p: Point)
    ensures MatrixPower(Sixty, 3, p) == Mul(-1.0, p)
  {
    assert MatrixPower(Sixty, 1, p) == RotMatrix(Sixty, p);
    assert MatrixPower(Sixty, 2, p) == RotMatrix(Sixty, RotMatrix(Sixty, p));
  }

  /** Powers of one matrix compose by adding exponents. */
  lemma {:induction false} MatrixPowerAdd(a: Angle, m: nat, n: nat, p: Point)
    ensures MatrixPower(a, m, MatrixPower(a, n, p)) == MatrixPower(a, m + n, p)
  {
    if m > 0 {
      MatrixPowerAdd(a, m - 1, n, p);
    }
  }

  /** Six 60-degree turns are the identity. */
  lemma SixtySixTimes(p: Point)
    ensures MatrixPower(Sixty, 6, p) == p
  {
    SixtyThreeTimes(p);
    SixtyThreeTimes(MatrixPower(Sixty, 3, p));
    MatrixPowerAdd(Sixty, 3, 3, p);
  }

  /** The n-th power of the 120-degree rotation is the 2n-th power of the 60-degree one. */
  lemma {:induction false} OneTwentyPower(n: nat, p: Point)
    ensures MatrixPower(OneTwenty, n, p) == MatrixPower(Sixty, 2 * n, p)
  {
    if n > 0 {
      OneTwentyPower(n - 1, p);
      var q := MatrixPower(Sixty, 2 * n - 2, p);
      OneTwentyTwice(q);
      assert MatrixPower(Sixty, 2 * n, p) == RotMatrix(Sixty, RotMatrix(Sixty, q));
    }
  }

  /** Two factors applied one after the other combine into their product. */
  lemma MulMul(j: real, k: real, p: Point)
    ensures Mul(j, Mul(k, p)) == Mul(j * k, p) == Mul(k, Mul(j, p))
  {
    assert j * (k * p.x) == (j * k) * p.x == k * (j * p.x);
    assert j * (k * p.ys) == (j * k) * p.ys == k * (j * p.ys);
  }

  /** A rotation matrix commutes with a scalar factor. */
  lemma RotMatrixMul(a: Angle, k: real, p: Point)
    ensures RotMatrix(a, Mul(k, p)) == Mul(k, RotMatrix(a, p))
  {
    var x, y := p.x, p.ys;
    assert k * (0.5 * x - 1.5 * y) == 0.5 * (k * x) - 1.5 * (k * y);
    assert k * (0.5 * x + 0.5 * y) == 0.5 * (k * x) + 0.5 * (k * y);
    assert k * (-0.5 * x - 1.5 * y) == -0.5 * (k * x) - 1.5 * (k * y);
    assert k * (0.5 * x - 0.5 * y) == 0.5 * (k * x) - 0.5 * (k * y);
  }

  /** A rotation acts linearly: it commutes with a scalar factor. */
  lemma {:induction false} MatrixPowerMul(a: Angle, n: nat, k: real, p: Point)
    ensures MatrixPower(a, n, Mul(k, p)) == Mul(k, MatrixPower(a, n, p))
  {
    if n > 0 {
      MatrixPowerMul(a, n - 1, k, p);
      RotMatrixMul(a, k, MatrixPower(a, n - 1, p));
    }
  }

  /** The coordinate sum of a list of points. */
  function Sum(ps: seq<Point>): Point
  {
    if ps == [] then Origin else Add(Sum(ps[..|ps| - 1]), ps[|ps| - 1])
  }

  /** numpy's mean over axis 0: the vertex mean of a non-empty polygon. */
  function Mean(ps: seq<Point>): Point
    requires ps != []
  {
    Mul(1.0 / |ps| as real, Sum(ps))
  }

  /** The sum of a triangle's three vertices, written out. */
  lemma Sum3(ps: seq<Point>)
    requires |ps| == 3
    ensures Sum(ps) == Add(Add(Add(Origin, ps[0]), ps[1]), ps[2])
  {
    var p2, p1 := ps[..2], ps[..1];
    assert p2[..1] == p1 && p1[..0] == [];
    assert Sum(p1) == Add(Origin, ps[0]);
    assert Sum(p2) == Add(Sum(p1), ps[1]);
  }

  /** The sum of a hexagon's six vertices, written out. */
  lemma Sum6(ps: seq<Point>)
    requires |ps| == 6
    ensures Sum(ps) == Add(Add(Add(Add(Add(Add(Origin, ps[0]), ps[1]), ps[2]), ps[3]), ps[4]), ps[5])
  {
    var p5, p4, p3, p2, p1 := ps[..5], ps[..4], ps[..3], ps[..2], ps[..1];
    assert p5[..4] == p4 && p4[..3] == p3 && p3[..2] == p2 && p2[..1] == p1 && p1[..0] == [];
    assert Sum(p1) == Add(Origin, ps[0]);
    assert Sum(p2) == Add(Sum(p1), ps[1]);
    assert Sum(p3) == Add(Sum(p2), ps[2]);
    assert Sum(p4) == Add(Sum(p3), ps[3]);
    assert Sum(p5) == Add(Sum(p4), ps[4]);
  }

  /** Scaling every point scales the sum. */
  lemma {:induction false} SumMul(k: real, ps: seq<Point>)
    ensures Sum(seq(|ps|, i requires 0 <= i < |ps| => Mul(k, ps[i]))) == Mul(k, Sum(ps))
  {
    var qs := seq(|ps|, i requires 0 <= i < |ps| => Mul(k, ps[i]));
    if ps != [] {
      var n := |ps| - 1;
      SumMul(k, ps[..n]);
      assert qs[..n] == seq(n, i requires 0 <= i < n => Mul(k, ps[..n][i]));
      var s := Sum(ps[..n]);
      assert k * (s.x + ps[n].x) == k * s.x + k * ps[n].x;
      assert k * (s.ys + ps[n].ys) == k * s.ys + k * ps[n].ys;
    } else {
      assert k * 0.0 == 0.0;
    }
  }

  /** Scaling a polygon scales its vertex mean. */
  lemma MeanMul(k: real, ps: seq<Point>)
    requires ps != []
    ensures Mean(seq(|ps|, i requires 0 <= i < |ps| => Mul(k, ps[i]))) == Mul(k, Mean(ps))
  {
    SumMul(k, ps);
    MulMul(1.0 / |ps| as real, k, Sum(ps));
  }
}
