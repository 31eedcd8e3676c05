/** The two compute shaders that count, per vertex, how many cameras see it:
    COMPUTE_SHADER_RESET_VISIBILITY clears the `annexe` buffer and one run of
    COMPUTE_SHADER_COMPUTE_VISIBILITY per camera adds 1 to `annexe[].x` for the
    three vertices of every triangle the camera sees front-facing. The buffers
    hold one entry per triangle corner: slot 3g + k is corner k of triangle g.
    The invocations of one dispatch write disjoint slots, so they are modelled
    as a loop over the triangles. */
module Visibility {
  import opened Projection

  /** The margin the visibility pass gives the clip cube. */
  const VISIBILITY_MARGIN: real := 0.005

  /** The number of triangles a dispatch covers: `_vertexNbr / 3`. */
  function Triangles(vertexNbr: nat): nat { vertexNbr / 3 }

  /** Whether corner k of triangle g is visible from the camera `mvp`. */
  predicate CornerVisible(vertex: seq<Vec4>, mvp: Mat4, g: nat, k: nat)
    requires 3 * g + k < |vertex|
  {
    ProjectAndCheckVisibility(vertex[3 * g + k], mvp, VISIBILITY_MARGIN).visible
  }

  /** The camera counts triangle g: its three corners are visible and its
      projected normal does not point toward the viewer's back (z <= 0). */
  predicate TriangleCounted(vertex: seq<Vec4>, mvp: Mat4, g: nat)
    requires 3 * g + 2 < |vertex|
  {
    && CornerVisible(vertex, mvp, g, 0) && CornerVisible(vertex, mvp, g, 1) && CornerVisible(vertex, mvp, g, 2)
    && AtMostZero(NormalZSign(
         ProjectAndCheckVisibility(vertex[3 * g], mvp, VISIBILITY_MARGIN).projected,
         ProjectAndCheckVisibility(vertex[3 * g + 1], mvp, VISIBILITY_MARGIN).projected,
         ProjectAndCheckVisibility(vertex[3 * g + 2], mvp, VISIBILITY_MARGIN).projected))
  }

  /** The buffer after the reset pass. */
  function Reset(annexe: seq<Vec4>, vertexNbr: nat): (r: seq<Vec4>)
    requires 3 * Triangles(vertexNbr) <= |annexe|
    ensures |r| == |annexe|
    ensures forall i :: 0 <= i < 3 * Triangles(vertexNbr) ==> r[i] == ZERO
    ensures forall i :: 3 * Triangles(vertexNbr) <= i < |annexe| ==> r[i] == annexe[i]
  {
    seq(|annexe|, i requires 0 <= i < |annexe| => if i < 3 * Triangles(vertexNbr) then ZERO else annexe[i])
  }

  /** The buffer after one visibility pass for the camera `mvp`. */
  function Pass(annexe: seq<Vec4>, vertex: seq<Vec4>, mvp: Mat4, vertexNbr: nat): (r: seq<Vec4>)
    requires 3 * Triangles(vertexNbr) <= |annexe| && 3 * Triangles(vertexNbr) <= |vertex|
    ensures |r| == |annexe|
    ensures forall i :: 0 <= i < |r| ==> r[i].y == annexe[i].y && r[i].z == annexe[i].z && r[i].w == annexe[i].w
    ensures forall i :: 0 <= i < |r| ==> r[i].x == annexe[i].x || r[i].x == annexe[i].x + 1.0
    ensures forall i :: 3 * Triangles(vertexNbr) <= i < |r| ==> r[i] == annexe[i]
    ensures forall i :: 0 <= i < 3 * Triangles(vertexNbr) ==>
      (r[i].x == annexe[i].x + 1.0 <==> TriangleCounted(vertex, mvp, i / 3))
  {
    seq(|annexe|, i requires 0 <= i < |annexe| =>
      if i < 3 * Triangles(vertexNbr) && TriangleCounted(vertex, mvp, i / 3)
      then annexe[i].(x := annexe[i].x + 1.0)
      else annexe[i])
  }

  /** COMPUTE_SHADER_RESET_VISIBILITY */
  method ResetVisibility(annexe: array<Vec4>, vertexNbr: nat)
    requires 3 * Triangles(vertexNbr) <= annexe.Length
    modifies annexe
    ensures annexe[..] == Reset(old(annexe[..]), vertexNbr)
  {
    var globalID := 0;
    while globalID < vertexNbr / 3
      invariant 0 <= globalID <= vertexNbr / 3
      invariant forall i :: 0 <= i < 3 * globalID ==> annexe[i] == ZERO
      invariant forall i :: 3 * globalID <= i < annexe.Length ==> annexe[i] == old(annexe[i])
    {
      for idx := 0 to 3
        invariant forall i :: 0 <= i < 3 * globalID + idx ==> annexe[i] == ZERO
        invariant forall i :: 3 * globalID + idx <= i < annexe.Length ==> annexe[i] == old(annexe[i])
      {
        var vertexId := globalID * 3 + idx;
        annexe[vertexId] := ZERO;
      }
      globalID := globalID + 1;
    }
  }

  /** One invocation of COMPUTE_SHADER_COMPUTE_VISIBILITY, for triangle
      `globalID`. */
  method CountTriangle(vertex: seq<Vec4>, mvp: Mat4, annexe: array<Vec4>, globalID: nat)
    requires 3 * globalID + 2 < |vertex| && 3 * globalID + 2 < annexe.Length
    modifies annexe
    ensures forall i :: 0 <= i < annexe.Length ==>
      annexe[i] == if 3 * globalID <= i < 3 * globalID + 3 && TriangleCounted(vertex, mvp, globalID)
                   then old(annexe[i]).(x := old(annexe[i]).x + 1.0) else old(annexe[i])
  {
    var screenVertex := new Projected[3](_ => NonFinite);
    var vertexVisible := new bool[3](_ => false);
    var allVerticesVisible := true;
    for idx := 0 to 3
      modifies screenVertex, vertexVisible
      invariant forall k :: 0 <= k < idx ==>
        && screenVertex[k] == ProjectAndCheckVisibility(vertex[3 * globalID + k], mvp, VISIBILITY_MARGIN).projected
        && vertexVisible[k] == CornerVisible(vertex, mvp, globalID, k)
      invariant allVerticesVisible <==> forall k :: 0 <= k < idx ==> vertexVisible[k]
    {
      var vertexId := globalID * 3 + idx;
      var r := ProjectAndCheckVisibility(vertex[vertexId], mvp, VISIBILITY_MARGIN);
      screenVertex[idx] := r.projected;
      if r.visible {
        vertexVisible[idx] := true;
      } else {
        vertexVisible[idx] := false;
        allVerticesVisible := false;
      }
    }

    var normalSign := NormalZSign(screenVertex[0], screenVertex[1], screenVertex[2]);
    assert allVerticesVisible && AtMostZero(normalSign) <==> TriangleCounted(vertex, mvp, globalID);
    if allVerticesVisible && AtMostZero(normalSign) {
      for idx := 0 to 3
        modifies annexe
        invariant forall k :: 0 <= k < 3 ==> vertexVisible[k]
        invariant forall i :: 0 <= i < annexe.Length ==>
          annexe[i] == if 3 * globalID <= i < 3 * globalID + idx then old(annexe[i]).(x := old(annexe[i]).x + 1.0) else old(annexe[i])
      {
        var vertexId := globalID * 3 + idx;
        annexe[vertexId] := annexe[vertexId].(x := annexe[vertexId].x + 1.0);
        // `annexe[].y += 1.0` for a corner that is not visible: every corner is
        annexe[vertexId] := annexe[vertexId].(y := annexe[vertexId].y + if vertexVisible[idx] then 0.0 else 1.0);
      }
    }
  }

  /** COMPUTE_SHADER_COMPUTE_VISIBILITY for the camera `mvp`. */
  method ComputeVisibility(vertex: seq<Vec4>, mvp: Mat4, annexe: array<Vec4>, vertexNbr: nat)
    requires 3 * Triangles(vertexNbr) <= |vertex| && 3 * Triangles(vertexNbr) <= annexe.Length
    modifies annexe
    ensures annexe[..] == Pass(old(annexe[..]), vertex, mvp, vertexNbr)
  {
    var globalID := 0;
    while globalID < vertexNbr / 3
      invariant 0 <= globalID <= vertexNbr / 3
      invariant forall i :: 0 <= i < annexe.Length ==>
        annexe[i] == if i < 3 * globalID && TriangleCounted(vertex, mvp, i / 3)
                     then old(annexe[i]).(x := old(annexe[i]).x + 1.0) else old(annexe[i])
    {
      CountTriangle(vertex, mvp, annexe, globalID);
      assert forall i :: 3 * globalID <= i < 3 * globalID + 3 ==> i / 3 == globalID;
      globalID := globalID + 1;
    }
  }

  /** The buffer after one visibility pass per camera of `mvps`, in order. */
  function Passes(annexe: seq<Vec4>, vertex: seq<Vec4>, mvps: seq<Mat4>, vertexNbr: nat): (r: seq<Vec4>)
    requires 3 * Triangles(vertexNbr) <= |annexe| && 3 * Triangles(vertexNbr) <= |vertex|
    ensures |r| == |annexe|
    decreases |mvps|
  {
    if mvps == [] then annexe
    else Pass(Passes(annexe, vertex, mvps[..|mvps| - 1], vertexNbr), vertex, mvps[|mvps| - 1], vertexNbr)
  }

  /** The number of cameras of `mvps` that count triangle g. */
  function Coverage(vertex: seq<Vec4>, mvps: seq<Mat4>, g: nat): nat
    requires 3 * g + 2 < |vertex|
    decreases |mvps|
  {
    if mvps == [] then 0
    else Coverage(vertex, mvps[..|mvps| - 1], g) + (if TriangleCounted(vertex, mvps[|mvps| - 1], g) then 1 else 0)
  }

  /** No triangle is counted by more cameras than there are. */
  lemma {:induction false} CoverageBounded(vertex: seq<Vec4>, mvps: seq<Mat4>, g: nat)
    requires 3 * g + 2 < |vertex|
    ensures Coverage(vertex, mvps, g) <= |mvps|
    ensures Coverage(vertex, mvps, g) == |mvps| <==> forall c :: 0 <= c < |mvps| ==> TriangleCounted(vertex, mvps[c], g)
    decreases |mvps|
  {
    if mvps != [] {
      var init := mvps[..|mvps| - 1];
      CoverageBounded(vertex, init, g);
      if Coverage(vertex, mvps, g) == |mvps| {
        forall c | 0 <= c < |mvps|
          ensures TriangleCounted(vertex, mvps[c], g)
        {
          if c < |mvps| - 1 {
            assert mvps[c] == init[c];
          }
        }
      }
      if forall c :: 0 <= c < |mvps| ==> TriangleCounted(vertex, mvps[c], g) {
        forall c | 0 <= c < |init|
          ensures TriangleCounted(vertex, init[c], g)
        {
          assert init[c] == mvps[c];
        }
      }
    }
  }

  /** The passes add the coverage of each slot's triangle to `.x` and leave
      every other component, and every slot past the triangles, as it was. */
  lemma {:induction false} PassesAccumulate(annexe: seq<Vec4>, vertex: seq<Vec4>, mvps: seq<Mat4>, vertexNbr: nat)
    requires 3 * Triangles(vertexNbr) <= |annexe| && 3 * Triangles(vertexNbr) <= |vertex|
    ensures var r := Passes(annexe, vertex, mvps, vertexNbr);
      && (forall i :: 0 <= i < 3 * Triangles(vertexNbr) ==>
            r[i] == annexe[i].(x := annexe[i].x + Coverage(vertex, mvps, i / 3) as real))
      && (forall i :: 3 * Triangles(vertexNbr) <= i < |annexe| ==> r[i] == annexe[i])
    decreases |mvps|
  {
    if mvps != [] {
      PassesAccumulate(annexe, vertex, mvps[..|mvps| - 1], vertexNbr);
    }
  }

  /** After a reset and one pass per camera, the `.x` of every corner of
      triangle g is the number of cameras that count g, between 0 and the
      number of cameras; `.y`, `.z` and `.w` are 0. */
  lemma AccumulatedCoverage(annexe: seq<Vec4>, vertex: seq<Vec4>, mvps: seq<Mat4>, vertexNbr: nat)
    requires 3 * Triangles(vertexNbr) <= |annexe| && 3 * Triangles(vertexNbr) <= |vertex|
    ensures var r := Passes(Reset(annexe, vertexNbr), vertex, mvps, vertexNbr);
      forall i :: 0 <= i < 3 * Triangles(vertexNbr) ==>
        && r[i] == Vec4(Coverage(vertex, mvps, i / 3) as real, 0.0, 0.0, 0.0)
        && 0.0 <= r[i].x <= |mvps| as real
  {
    var reset := Reset(annexe, vertexNbr);
    PassesAccumulate(reset, vertex, mvps, vertexNbr);
    var r := Passes(reset, vertex, mvps, vertexNbr);
    forall i | 0 <= i < 3 * Triangles(vertexNbr)
      ensures r[i] == Vec4(Coverage(vertex, mvps, i / 3) as real, 0.0, 0.0, 0.0)
      ensures 0.0 <= r[i].x <= |mvps| as real
    {
      CoverageBounded(vertex, mvps, i / 3);
      assert reset[i] == ZERO;
    }
  }
}
