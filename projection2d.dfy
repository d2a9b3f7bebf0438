/**
  The 2D view of a 3D point: a rotation about the vertical axis by an angle
  in degrees, then scaling into the window with the origin at its centre;
  and the way back from window coordinates and a depth to a 3D point.
 */
module Projection2d {
  import opened RealMath
  import opened LinearAlgebra
  import opened Wrappers

  /** A 3D point `(x, y, z)`. */
  datatype Point3 = Point3(x: real, y: real, z: real)

  /** A window size `(width, height)` in pixels. */
  datatype Window = Window(width: real, height: real)

  /** What `project_point` returns: window coordinates and the depth. */
  datatype Projected = Projected(u: real, v: real, depth: real)

  /** Why `back_project` fails: the division by a zero window extent. */
  datatype Error = ZeroDivision

  /** The view rotation E for `zRotation` degrees; y is its fixed axis. */
  function ViewMatrix(m: Math, zRotation: real): Mat3
  {
    var c, s := m.cos(Radians(zRotation)), m.sin(Radians(zRotation));
    Mat3(c, 0.0, s,
         0.0, 1.0, 0.0,
         -s, 0.0, c)
  }

  /** `project_point`: rotate by E, then scale x by the width and y by the height. */
  function ProjectPoint(m: Math, p: Point3, zRotation: real, center: Window): (r: Projected)
    ensures var c, s := m.cos(Radians(zRotation)), m.sin(Radians(zRotation));
            r.u == center.width * (c * p.x + s * p.z) + center.width / 2.0
            && r.depth == -s * p.x + c * p.z
    ensures r.v == center.height * p.y + center.height / 2.0
  {
    var q := MatVec(ViewMatrix(m, zRotation), Col3(p.x, p.y, p.z));
    Projected(center.width * q.x + center.width / 2.0, center.height * q.y + center.height / 2.0, q.w)
  }

  /** The vertical window coordinate does not depend on the rotation. */
  lemma ProjectedHeightIgnoresRotation(m: Math, p: Point3, rot1: real, rot2: real, center: Window)
    ensures ProjectPoint(m, p, rot1, center).v == ProjectPoint(m, p, rot2, center).v
  {
  }

  /**
    `back_project`: undo the window scaling, append the depth and apply the
    transpose of E. A zero width or height raises a division error.
   */
  function BackProject(m: Math, u: real, v: real, zRotation: real, depth: real, window: Window): (r: Result<Point3, Error>)
    ensures r.Err? <==> window.width == 0.0 || window.height == 0.0
    ensures r.Ok? ==>
              var c, s := m.cos(Radians(zRotation)), m.sin(Radians(zRotation));
              var sx, sy := (u - window.width / 2.0) / window.width, (v - window.height / 2.0) / window.height;
              r.value == Point3(c * sx - s * depth, sy, s * sx + c * depth)
  {
    if window.width == 0.0 || window.height == 0.0 then Err(ZeroDivision)
    else
      var sx := (u - window.width / 2.0) / window.width;
      var sy := (v - window.height / 2.0) / window.height;
      var q := MatVec(Transpose(ViewMatrix(m, zRotation)), Col3(sx, sy, depth));
      Ok(Point3(q.x, q.y, q.w))
  }

  /** The default window `(0, 0)` of `back_project` always divides by zero. */
  lemma DefaultWindowFails(m: Math, u: real, v: real)
    ensures BackProject(m, u, v, 0.0, 0.0, Window(0.0, 0.0)) == Err(ZeroDivision)
  {
  }

  /**
    Projecting a point and back-projecting its window coordinates with the
    same rotation, its depth and the same nonzero window gives the point back,
    provided cos^2 + sin^2 = 1 at that angle.
   */
  lemma RoundTrip(m: Math, p: Point3, zRotation: real, window: Window)
    requires OnUnitCircle(m, Radians(zRotation))
    requires window.width != 0.0 && window.height != 0.0
    ensures var r := ProjectPoint(m, p, zRotation, window);
            BackProject(m, r.u, r.v, zRotation, r.depth, window) == Ok(p)
  {
    var c, s := m.cos(Radians(zRotation)), m.sin(Radians(zRotation));
    var r := ProjectPoint(m, p, zRotation, window);
    var W, H := window.width, window.height;
    var px := c * p.x + s * p.z;
    Unscale(W, px);
    Unscale(H, p.y);
    RotateBack(c, s, p.x, p.z);
    var sx, sy := (r.u - W / 2.0) / W, (r.v - H / 2.0) / H;
    assert sx == px && sy == p.y;
    var b := BackProject(m, r.u, r.v, zRotation, r.depth, window);
    assert b.value == Point3(c * sx - s * r.depth, sy, s * sx + c * r.depth);
    assert r.depth == -s * p.x + c * p.z;
    assert c * sx - s * r.depth == p.x;
    assert s * sx + c * r.depth == p.z;
  }

  /** The window scaling `a -> W a + W / 2` is undone by `u -> (u - W / 2) / W`. */
  lemma Unscale(W: real, a: real)
    requires W != 0.0
    ensures ((W * a + W / 2.0) - W / 2.0) / W == a
  {
    assert (W * a + W / 2.0) - W / 2.0 == W * a;
  }

  /** The transpose of a rotation about the y axis undoes it. */
  lemma RotateBack(c: real, s: real, x: real, z: real)
    requires c * c + s * s == 1.0
    ensures c * (c * x + s * z) - s * (-s * x + c * z) == x
    ensures s * (c * x + s * z) + c * (-s * x + c * z) == z
  {
    assert c * (c * x + s * z) - s * (-s * x + c * z) == (c * c + s * s) * x;
    assert s * (c * x + s * z) + c * (-s * x + c * z) == (c * c + s * s) * z;
  }
}
