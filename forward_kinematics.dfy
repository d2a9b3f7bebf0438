/**
  Planar forward kinematics of a two-link limb with homogeneous 3 x 3
  transforms: the rotation matrix, the rotation-plus-displacement transform
  and the base / elbow / end positions of the chain.
 */
module ForwardKinematics {
  import opened RealMath
  import opened LinearAlgebra

  /** A 2 x 2 matrix, row by row. */
  datatype Mat2 = Mat2(a: real, b: real, c: real, d: real)
  {
    function Apply(x: real, y: real): (real, real)
    {
      (a * x + b * y, c * x + d * y)
    }
  }

  /** `rot2d(theta)`: the counter-clockwise rotation by `theta` radians. */
  function Rot2d(m: Math, theta: real): (R: Mat2)
    ensures R.a == R.d == m.cos(theta) && R.c == -R.b == m.sin(theta)
  {
    Mat2(m.cos(theta), -m.sin(theta), m.sin(theta), m.cos(theta))
  }

  /** A rotation by 0 is the identity when cos 0 = 1 and sin 0 = 0. */
  lemma Rot2dZero(m: Math, x: real, y: real)
    requires TrigAtZero(m)
    ensures Rot2d(m, 0.0) == Mat2(1.0, 0.0, 0.0, 1.0)
    ensures Rot2d(m, 0.0).Apply(x, y) == (x, y)
  {
  }

  /** A rotation keeps the squared length of every vector. */
  lemma RotationKeepsLength(m: Math, theta: real, x: real, y: real)
    requires OnUnitCircle(m, theta)
    ensures var (u, v) := Rot2d(m, theta).Apply(x, y); u * u + v * v == x * x + y * y
  {
    var c, s := m.cos(theta), m.sin(theta);
    var (u, v) := Rot2d(m, theta).Apply(x, y);
    assert u * u + v * v == (c * c + s * s) * (x * x + y * y);
  }

  /**
    `transformation2d(R, d)`: the identity with R in the top-left 2 x 2 block
    and d in the top two rows of the last column.
   */
  function Transformation2d(R: Mat2, dx: real, dy: real): (T: Mat3)
    ensures T.m00 == R.a && T.m01 == R.b && T.m10 == R.c && T.m11 == R.d
    ensures T.m02 == dx && T.m12 == dy
    ensures T.m20 == 0.0 && T.m21 == 0.0 && T.m22 == 1.0
  {
    Mat3(R.a, R.b, dx, R.c, R.d, dy, 0.0, 0.0, 1.0)
  }

  /** A homogeneous transform maps the point p to R p + d. */
  lemma TransformApply(R: Mat2, dx: real, dy: real, x: real, y: real)
    ensures MatVec(Transformation2d(R, dx, dy), Col3(x, y, 1.0))
         == Col3(R.Apply(x, y).0 + dx, R.Apply(x, y).1 + dy, 1.0)
  {
  }

  /** Composing two transforms rotates by R1 R2 and displaces by R1 d2 + d1. */
  lemma TransformCompose(R1: Mat2, d1x: real, d1y: real, R2: Mat2, d2x: real, d2y: real)
    ensures MatMul(Transformation2d(R1, d1x, d1y), Transformation2d(R2, d2x, d2y))
         == Transformation2d(
              Mat2(R1.a * R2.a + R1.b * R2.c, R1.a * R2.b + R1.b * R2.d,
                   R1.c * R2.a + R1.d * R2.c, R1.c * R2.b + R1.d * R2.d),
              R1.Apply(d2x, d2y).0 + d1x, R1.Apply(d2x, d2y).1 + d1y)
  {
  }

  /**
    `forward_kinematics_2D_2link`: `[x0, y0, x1, y1, x2, y2]`, the base, the
    end of link 1 and the end of link 2, with the products evaluated left to
    right as numpy does.
   */
  function ForwardKinematics2Link(m: Math, a1: real, a2: real, x0: real, y0: real, theta1: real, theta2: real): (points: seq<real>)
    ensures |points| == 6
    ensures points[0] == x0 && points[1] == y0
  {
    var R0, R1, R2 := Rot2d(m, 0.0), Rot2d(m, theta1), Rot2d(m, theta2);
    var T0 := Transformation2d(R1, 0.0, 0.0);
    var T1 := Transformation2d(R2, a1, 0.0);
    var T2 := Transformation2d(R0, a2, 0.0);
    var origin0 := Col3(0.0, 0.0, 1.0);
    var T01 := MatMul(T0, T1);
    var origin1 := MatVec(T01, origin0);
    var origin2 := MatVec(MatMul(T01, T2), origin0);
    [origin0.x + x0, origin0.y + y0, origin1.x + x0, origin1.y + y0, origin2.x + x0, origin2.y + y0]
  }

  /** R(theta1) ((a1, 0) + R(theta2) (a2, 0)): where link 2 ends relative to the base. */
  function EndOffset(m: Math, a1: real, a2: real, theta1: real, theta2: real): (real, real)
  {
    var (ex, ey) := Rot2d(m, theta2).Apply(a2, 0.0);
    Rot2d(m, theta1).Apply(a1 + ex, ey)
  }

  /**
    The chain `T0 @ T1 @ origin` ends at R1 (a1, 0), and `T0 @ T1 @ T2 @ origin`
    at R1 ((a1, 0) + R2 (a2, 0)), whatever the rotation R0 of the last transform.
   */
  lemma ChainPoints(R1: Mat2, R2: Mat2, R0: Mat2, a1: real, a2: real)
    ensures var T01 := MatMul(Transformation2d(R1, 0.0, 0.0), Transformation2d(R2, a1, 0.0));
            MatVec(T01, Col3(0.0, 0.0, 1.0)) == Col3(R1.a * a1, R1.c * a1, 1.0)
    ensures var T01 := MatMul(Transformation2d(R1, 0.0, 0.0), Transformation2d(R2, a1, 0.0));
            var e := R1.Apply(a1 + R2.Apply(a2, 0.0).0, R2.Apply(a2, 0.0).1);
            MatVec(MatMul(T01, Transformation2d(R0, a2, 0.0)), Col3(0.0, 0.0, 1.0)) == Col3(e.0, e.1, 1.0)
  {
    var T0, T1, T2 := Transformation2d(R1, 0.0, 0.0), Transformation2d(R2, a1, 0.0), Transformation2d(R0, a2, 0.0);
    var T01 := MatMul(T0, T1);
    assert T01.m02 == R1.a * a1 && T01.m12 == R1.c * a1 && T01.m22 == 1.0;
    assert T01.m00 == R1.a * R2.a + R1.b * R2.c && T01.m10 == R1.c * R2.a + R1.d * R2.c;
    MatVecOrigin(T01);
    var T := MatMul(T01, T2);
    assert T2.m02 == a2 && T2.m12 == 0.0 && T2.m22 == 1.0;
    assert T.m02 == T01.m00 * a2 + T01.m02;
    assert T.m12 == T01.m10 * a2 + T01.m12;
    assert T.m22 == 1.0;
    MatVecOrigin(T);
    var (ex, ey) := R2.Apply(a2, 0.0);
    assert ex == R2.a * a2 && ey == R2.c * a2;
    var e := R1.Apply(a1 + ex, ey);
    assert e.0 == R1.a * a1 + R1.a * (R2.a * a2) + R1.b * (R2.c * a2);
    assert (R1.a * R2.a + R1.b * R2.c) * a2 == R1.a * (R2.a * a2) + R1.b * (R2.c * a2);
    assert e.1 == R1.c * a1 + R1.c * (R2.a * a2) + R1.d * (R2.c * a2);
    assert (R1.c * R2.a + R1.d * R2.c) * a2 == R1.c * (R2.a * a2) + R1.d * (R2.c * a2);
  }

  /**
    The base is (x0, y0), the elbow is (x0 + a1 cos theta1, y0 + a1 sin theta1)
    and the end is the base plus R(theta1) ((a1, 0) + R(theta2) (a2, 0)); the
    rotation of the last transform plays no part.
   */
  lemma {:induction false} ForwardKinematicsPoints(m: Math, a1: real, a2: real, x0: real, y0: real, theta1: real, theta2: real)
    ensures var p := ForwardKinematics2Link(m, a1, a2, x0, y0, theta1, theta2);
            p[2] == x0 + a1 * m.cos(theta1) && p[3] == y0 + a1 * m.sin(theta1)
    ensures var p := ForwardKinematics2Link(m, a1, a2, x0, y0, theta1, theta2);
            p[4] == x0 + EndOffset(m, a1, a2, theta1, theta2).0
            && p[5] == y0 + EndOffset(m, a1, a2, theta1, theta2).1
  {
    var R0, R1, R2 := Rot2d(m, 0.0), Rot2d(m, theta1), Rot2d(m, theta2);
    ChainPoints(R1, R2, R0, a1, a2);
  }

  /** Link 1 has length a1 and link 2 has length a2 (as squared distances). */
  lemma LinkLengths(m: Math, a1: real, a2: real, x0: real, y0: real, theta1: real, theta2: real)
    requires OnUnitCircle(m, theta1) && OnUnitCircle(m, theta2)
    ensures var p := ForwardKinematics2Link(m, a1, a2, x0, y0, theta1, theta2);
            (p[2] - p[0]) * (p[2] - p[0]) + (p[3] - p[1]) * (p[3] - p[1]) == a1 * a1
    ensures var p := ForwardKinematics2Link(m, a1, a2, x0, y0, theta1, theta2);
            (p[4] - p[2]) * (p[4] - p[2]) + (p[5] - p[3]) * (p[5] - p[3]) == a2 * a2
  {
    var p := ForwardKinematics2Link(m, a1, a2, x0, y0, theta1, theta2);
    ForwardKinematicsPoints(m, a1, a2, x0, y0, theta1, theta2);
    var R1, R2 := Rot2d(m, theta1), Rot2d(m, theta2);
    RotationKeepsLength(m, theta1, a1, 0.0);
    var (ex, ey) := R2.Apply(a2, 0.0);
    RotationKeepsLength(m, theta2, a2, 0.0);
    RotationKeepsLength(m, theta1, ex, ey);
    var (qx, qy) := R1.Apply(ex, ey);
    assert p[4] - p[2] == qx && p[5] - p[3] == qy;
  }
}
