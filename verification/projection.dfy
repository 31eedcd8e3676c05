/** The shared GLSL helpers of the shaders: projectAndCheckVisibility and
    normalVector. Coordinates are exact reals; a perspective divide by a zero
    `w` yields a non-finite point. */
module Projection {

  datatype Vec2 = Vec2(x: real, y: real)
  datatype Vec4 = Vec4(x: real, y: real, z: real, w: real)

  /** A 4x4 matrix given by its rows. */
  datatype Mat4 = Mat4(r0: Vec4, r1: Vec4, r2: Vec4, r3: Vec4)

  const ZERO: Vec4 := Vec4(0.0, 0.0, 0.0, 0.0)

  function Dot(r: Vec4, p: Vec4): real {
    r.x * p.x + r.y * p.y + r.z * p.z + r.w * p.w
  }

  /** `mvp * vec4(p.xyz, 1.0)`: the point's own `w` is ignored. */
  function Transform(mvp: Mat4, p: Vec4): Vec4 {
    var h := Vec4(p.x, p.y, p.z, 1.0);
    Vec4(Dot(mvp.r0, h), Dot(mvp.r1, h), Dot(mvp.r2, h), Dot(mvp.r3, h))
  }

  /** A point after the perspective divide: finite, or made of infinities and
      NaNs when `w` was zero. */
  datatype Projected = Finite(v: Vec4) | NonFinite

  /** `projected /= projected.w` */
  function Divide(c: Vec4): (r: Projected)
    ensures r.Finite? <==> c.w != 0.0
    ensures r.Finite? ==> r.v.w == 1.0 && r.v.x * c.w == c.x && r.v.y * c.w == c.y && r.v.z * c.w == c.z
  {
    if c.w == 0.0 then NonFinite else Finite(Vec4(c.x / c.w, c.y / c.w, c.z / c.w, 1.0))
  }

  function Abs(a: real): real { if a < 0.0 then -a else a }

  /** The clip cube widened by `margin`, in front of the camera: an independent
      statement of the test, with bounds instead of absolute values. */
  predicate InsideClipCube(v: Vec4, margin: real) {
    && 0.0 <= v.z <= 1.0 + margin
    && -(1.0 + margin) <= v.x <= 1.0 + margin
    && -(1.0 + margin) <= v.y <= 1.0 + margin
  }

  /** The result of projectAndCheckVisibility: whether the point is visible,
      the projected point written back through `inout p`, and `dist`, which is
      written (with |x| and |y|) only when the point is in front of the camera.
      A zero `w` with a positive z numerator divides z to +inf, which passes
      the `z >= 0` test, so a non-finite `dist` is written. */
  datatype Visibility = Visibility(visible: bool, projected: Projected, dist: MaybeDist)
  datatype MaybeDist = NoDist | Dist(d: Vec2) | NonFiniteDist

  function ProjectAndCheckVisibility(p: Vec4, mvp: Mat4, margin: real): (r: Visibility)
    ensures r.projected == Divide(Transform(mvp, p))
    ensures r.visible <==> r.projected.Finite? && InsideClipCube(r.projected.v, margin)
    ensures r.dist.Dist? <==> r.projected.Finite? && r.projected.v.z >= 0.0
    ensures r.dist.Dist? ==> r.dist.d.x >= 0.0 && r.dist.d.y >= 0.0
    ensures r.dist.NonFiniteDist? <==> Transform(mvp, p).w == 0.0 && Transform(mvp, p).z > 0.0
  {
    var clip := Transform(mvp, p);
    var projected := Divide(clip);
    if projected.Finite? && projected.v.z >= 0.0 then
      var a := Vec4(Abs(projected.v.x), Abs(projected.v.y), Abs(projected.v.z), Abs(projected.v.w));
      var visible := a.x <= 1.0 + margin && a.y <= 1.0 + margin && a.z <= 1.0 + margin;
      Visibility(visible, projected, Dist(Vec2(a.x, a.y)))
    else if projected.NonFinite? && clip.z > 0.0 then
      Visibility(false, projected, NonFiniteDist)
    else
      Visibility(false, projected, NoDist)
  }

  /** A point visible with some margin stays visible with any larger margin. */
  lemma MarginMonotone(p: Vec4, mvp: Mat4, small: real, large: real)
    requires small <= large
    ensures ProjectAndCheckVisibility(p, mvp, small).visible ==> ProjectAndCheckVisibility(p, mvp, large).visible
  {
  }

  /** A point the divide sends to infinity is never visible, whatever the margin. */
  lemma AtInfinityNeverVisible(p: Vec4, mvp: Mat4, margin: real)
    requires Transform(mvp, p).w == 0.0
    ensures !ProjectAndCheckVisibility(p, mvp, margin).visible
  {
  }

  /** The sign of a real, or NaN. */
  datatype Sign = Negative | Zero | Positive | NotANumber

  function SignOf(a: real): Sign {
    if a < 0.0 then Negative else if a == 0.0 then Zero else Positive
  }

  /** `normal.z <= 0.0` and `normal.z >= 0.0`: both false on NaN. */
  predicate AtMostZero(s: Sign) { s == Negative || s == Zero }
  predicate AtLeastZero(s: Sign) { s == Positive || s == Zero }

  /** cross(v - u, w - u), component by component. */
  function CrossX(u: Vec4, v: Vec4, w: Vec4): real { (v.y - u.y) * (w.z - u.z) - (v.z - u.z) * (w.y - u.y) }
  function CrossY(u: Vec4, v: Vec4, w: Vec4): real { (v.z - u.z) * (w.x - u.x) - (v.x - u.x) * (w.z - u.z) }
  function CrossZ(u: Vec4, v: Vec4, w: Vec4): real { (v.x - u.x) * (w.y - u.y) - (v.y - u.y) * (w.x - u.x) }

  /** The sign of the z component of normalVector(u, v, w) =
      normalize(cross(v - u, w - u)). Normalizing keeps the sign, except that
      a zero cross product (a degenerate triangle) normalizes to NaN; so does a
      non-finite corner. */
  function NormalZSign(u: Projected, v: Projected, w: Projected): (s: Sign)
    ensures s != NotANumber ==> u.Finite? && v.Finite? && w.Finite?
    ensures s == Zero ==> CrossZ(u.v, v.v, w.v) == 0.0
  {
    if !(u.Finite? && v.Finite? && w.Finite?) then NotANumber
    else if CrossX(u.v, v.v, w.v) == 0.0 && CrossY(u.v, v.v, w.v) == 0.0 && CrossZ(u.v, v.v, w.v) == 0.0 then NotANumber
    else SignOf(CrossZ(u.v, v.v, w.v))
  }

  function Opposite(s: Sign): Sign {
    match s
    case Negative => Positive
    case Positive => Negative
    case _ => s
  }

  /** Swapping two corners reverses the winding and so the facing: a
      triangle is front-facing in one order exactly when it is back-facing in
      the other. */
  lemma SwapReversesFacing(u: Projected, v: Projected, w: Projected)
    ensures NormalZSign(v, u, w) == Opposite(NormalZSign(u, v, w))
  {
    if u.Finite? && v.Finite? && w.Finite? {
      CrossAntisymmetric(u.v, v.v, w.v);
    }
  }

  lemma CrossAntisymmetric(u: Vec4, v: Vec4, w: Vec4)
    ensures CrossX(v, u, w) == -CrossX(u, v, w)
    ensures CrossY(v, u, w) == -CrossY(u, v, w)
    ensures CrossZ(v, u, w) == -CrossZ(u, v, w)
  {
  }
}
