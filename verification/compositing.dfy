/** The textured shaders' part in blending overlapping projectors: the vertex
    shader hands the triangle's coverage count (`annexe.x`) on as
    `totalBlend`, the fragment shader picks the texture coordinates after
    flip / flop, and with VERTEXBLENDING scales the colour by one over that
    count. */
module Compositing {
  import opened Projection
  import Visibility

  /** The factor for a fragment no camera was counted for: dimmed, not black. */
  const HIDDEN_FACTOR: real := 0.05

  /** The `totalBlend` output of a vertex: written, or left unwritten. */
  datatype Output = Unwritten | Written(value: real)

  /** The vertex shader's `totalBlend` for a vertex at clip-space `position`
      carrying `annexe`: `_annexe.x` on both branches of its in-view test, and
      nothing for a vertex behind the camera. */
  function TotalBlend(annexe: Vec4, position: Vec4): (r: Output)
    ensures r.Written? ==> r.value == annexe.x
    ensures r.Written? <==> Divide(position).Finite? && Divide(position).v.z >= 0.0
  {
    match Divide(position)
    case NonFinite => Unwritten
    case Finite(p) =>
      if p.z >= 0.0 then
        var a := Vec4(Abs(p.x), Abs(p.y), Abs(p.z), Abs(p.w));
        if a.x <= 1.0 && a.y <= 1.0 && a.z <= 1.0 then Written(annexe.x) else Written(annexe.x)
      else
        Unwritten
  }

  /** The VERTEXBLENDING factor the colour is scaled by. */
  function BlendFactor(totalBlend: real): (f: real)
    ensures totalBlend != 0.0 ==> f * totalBlend == 1.0
    ensures totalBlend == 0.0 ==> f == HIDDEN_FACTOR
    ensures totalBlend > 0.0 ==> f > 0.0
  {
    if totalBlend == 0.0 then HIDDEN_FACTOR else 1.0 / totalBlend
  }

  /** The light that the projectors of `mvps` counted for triangle g put on
      it, each scaling its colour by the factor f. */
  function Light(vertex: seq<Vec4>, mvps: seq<Mat4>, g: nat, f: real): real
    requires 3 * g + 2 < |vertex|
    decreases |mvps|
  {
    if mvps == [] then 0.0
    else Light(vertex, mvps[..|mvps| - 1], g, f) + (if Visibility.TriangleCounted(vertex, mvps[|mvps| - 1], g) then f else 0.0)
  }

  /** n shares of f, added one by one. */
  function Shares(n: nat, f: real): real {
    if n == 0 then 0.0 else Shares(n - 1, f) + f
  }

  /** Each projector that counts the triangle adds the same factor. */
  lemma {:induction false} LightIsCoverageShares(vertex: seq<Vec4>, mvps: seq<Mat4>, g: nat, f: real)
    requires 3 * g + 2 < |vertex|
    ensures Light(vertex, mvps, g, f) == Shares(Visibility.Coverage(vertex, mvps, g), f)
    decreases |mvps|
  {
    if mvps != [] {
      LightIsCoverageShares(vertex, mvps[..|mvps| - 1], g, f);
    }
  }

  /** n shares of f make n times f. */
  lemma {:induction false} SharesAreProduct(n: nat, f: real)
    ensures Shares(n, f) == n as real * f
  {
    if n > 0 {
      SharesAreProduct(n - 1, f);
      assert n as real * f == (n - 1) as real * f + f;
    }
  }

  /** The point of vertex blending: when every projector that counts a
      triangle scales its colour by the blend factor of the triangle's
      coverage, the scaled contributions add up to exactly one projector's
      worth, however many projectors overlap there. */
  lemma OverlapBlendsToOne(vertex: seq<Vec4>, mvps: seq<Mat4>, g: nat)
    requires 3 * g + 2 < |vertex|
    requires Visibility.Coverage(vertex, mvps, g) > 0
    ensures Light(vertex, mvps, g, BlendFactor(Visibility.Coverage(vertex, mvps, g) as real)) == 1.0
  {
    var coverage := Visibility.Coverage(vertex, mvps, g);
    LightIsCoverageShares(vertex, mvps, g, BlendFactor(coverage as real));
    SharesAreProduct(coverage, BlendFactor(coverage as real));
  }

  /** The texture coordinates after flip (`_tex0_flip`, mirrors y) and flop
      (`_tex0_flop`, mirrors x); any value other than 0 or 1 in either turns
      both off. */
  function RealCoords(texCoord: Vec2, flip: int, flop: int): (r: Vec2)
    ensures r.x == (if flop == 1 && (flip == 0 || flip == 1) then 1.0 - texCoord.x else texCoord.x)
    ensures r.y == (if flip == 1 && (flop == 0 || flop == 1) then 1.0 - texCoord.y else texCoord.y)
  {
    if flip == 1 && flop == 0 then Vec2(texCoord.x, 1.0 - texCoord.y)
    else if flip == 0 && flop == 1 then Vec2(1.0 - texCoord.x, texCoord.y)
    else if flip == 1 && flop == 1 then Vec2(1.0 - texCoord.x, 1.0 - texCoord.y)
    else texCoord
  }

  /** Applying the same flip / flop twice gives back the coordinates. */
  lemma RealCoordsInvolution(texCoord: Vec2, flip: int, flop: int)
    ensures RealCoords(RealCoords(texCoord, flip, flop), flip, flop) == texCoord
  {
  }

  /** Flip / flop keeps coordinates inside the unit square. */
  lemma RealCoordsStayInTexture(texCoord: Vec2, flip: int, flop: int)
    requires 0.0 <= texCoord.x <= 1.0 && 0.0 <= texCoord.y <= 1.0
    ensures var r := RealCoords(texCoord, flip, flop);
      0.0 <= r.x <= 1.0 && 0.0 <= r.y <= 1.0
  {
  }
}
