/** GEOMETRY_SHADER_FEEDBACK_DEFAULT: a triangle whose normal does not point to +z and that straddles
    the border of the (slightly widened) view is cut along that border into
    three triangles, so that no output triangle has corners on both sides;
    any other triangle passes through unchanged. The five points of a cut
    are the three corners and the two points where sides change; where
    exactly on its edge a crossing point lies (the `mix` ratio) is not part
    of this model, so points are kept symbolic. */
module FeedbackCut {
  import opened Projection

  /** The margin the cut gives the clip cube (`0.0 + 0.001`). */
  const CUT_MARGIN: real := 0.0 + 0.001

  /** cutTable, row by row: for each cut case, three triangles of three
      indices into the five points. */
  const CUT_ROW_0: seq<int> := [0, 3, 4, 3, 1, 4, 1, 2, 4]
  const CUT_ROW_1: seq<int> := [0, 3, 4, 3, 1, 4, 4, 2, 0]
  const CUT_ROW_2: seq<int> := [0, 1, 3, 3, 4, 0, 3, 2, 4]
  const CUT_ROW_3: seq<int> := [0, 1, 3, 3, 4, 0, 3, 2, 4]
  const CUT_ROW_4: seq<int> := [0, 3, 4, 3, 1, 4, 4, 2, 0]
  const CUT_ROW_5: seq<int> := [0, 3, 4, 3, 1, 4, 1, 2, 4]
  const CUT_TABLE: seq<int> := CUT_ROW_0 + CUT_ROW_1 + CUT_ROW_2 + CUT_ROW_3 + CUT_ROW_4 + CUT_ROW_5

  function CutRow(c: nat): seq<int>
    requires c <= 5
  {
    match c
    case 0 => CUT_ROW_0
    case 1 => CUT_ROW_1
    case 2 => CUT_ROW_2
    case 3 => CUT_ROW_3
    case 4 => CUT_ROW_4
    case _ => CUT_ROW_5
  }

  /** `cutTable[c * 9 + j]` is entry j of row c. */
  lemma CutTableEntry(c: nat, j: nat)
    requires c <= 5 && j < 9
    ensures |CUT_TABLE| == 6 * 9 && |CutRow(c)| == 9
    ensures CUT_TABLE[c * 9 + j] == CutRow(c)[j]
  {
  }

  /** A point of the output: input corner k, or the crossing point on the
      edge from corner `from` to corner `to`. */
  datatype Slot = Corner(k: nat) | OnEdge(from: nat, to: nat)

  /** An emitted vertex: its point and the annexe it carries. */
  datatype Emitted = Emitted(slot: Slot, annexe: Vec4)

  /** `side`: whether each of the three corners is inside the view. */
  predicate ValidSides(side: seq<bool>) { |side| == 3 }

  function InsideCount(side: seq<bool>): nat
    requires ValidSides(side)
  {
    (if side[0] then 1 else 0) + (if side[1] then 1 else 0) + (if side[2] then 1 else 0)
  }

  /** The triangle straddles the border: one or two corners inside. */
  predicate Mixed(side: seq<bool>)
    requires ValidSides(side)
  {
    InsideCount(side) == 1 || InsideCount(side) == 2
  }

  /** `1 << i` for a corner index. */
  function Bit(i: nat): nat
    requires i < 3
  {
    if i == 0 then 1 else if i == 1 then 2 else 4
  }

  /** The cut case: the bitmask of inside corners, minus one. */
  function CutCase(side: seq<bool>): int
    requires ValidSides(side)
  {
    (if side[0] then Bit(0) else 0) + (if side[1] then Bit(1) else 0) + (if side[2] then Bit(2) else 0) - 1
  }

  /** Whether edge i (from corner i to corner i + 1 mod 3) changes side. */
  predicate Crosses(side: seq<bool>, i: nat)
    requires ValidSides(side) && i < 3
  {
    side[i] != side[(i + 1) % 3]
  }

  /** The crossing points of the edges before `upTo`, in edge order. */
  function CrossingSlots(side: seq<bool>, upTo: nat): (r: seq<Slot>)
    requires ValidSides(side) && upTo <= 3
    ensures forall s :: s in r ==> s.OnEdge? && s.from < 3 && s.to == (s.from + 1) % 3 && Crosses(side, s.from)
  {
    if upTo == 0 then []
    else CrossingSlots(side, upTo - 1) + (if Crosses(side, upTo - 1) then [OnEdge(upTo - 1, upTo % 3)] else [])
  }

  /** The five points of a cut: `vertices[0..4]`. */
  function CutPoints(side: seq<bool>): seq<Slot>
    requires ValidSides(side)
  {
    [Corner(0), Corner(1), Corner(2)] + CrossingSlots(side, 3)
  }

  /** A straddling triangle has exactly two edges that change side, so the
      crossing points fill `vertices[3]` and `vertices[4]` and no more. */
  lemma TwoCrossings(side: seq<bool>)
    requires ValidSides(side) && Mixed(side)
    ensures |CrossingSlots(side, 3)| == 2
    ensures |CutPoints(side)| == 5
  {
    assert |CrossingSlots(side, 1)| == (if Crosses(side, 0) then 1 else 0);
    assert |CrossingSlots(side, 2)| == |CrossingSlots(side, 1)| + (if Crosses(side, 1) then 1 else 0);
    assert |CrossingSlots(side, 3)| == |CrossingSlots(side, 2)| + (if Crosses(side, 2) then 1 else 0);
  }

  /** With one or two corners inside, the cut case is a row of the table. */
  lemma CutCaseInRange(side: seq<bool>)
    requires ValidSides(side) && Mixed(side)
    ensures 0 <= CutCase(side) <= 5
  {
  }

  /** Every entry of the table indexes one of the five points. */
  lemma CutTableInBounds()
    ensures |CUT_TABLE| == 6 * 9
    ensures forall j :: 0 <= j < |CUT_TABLE| ==> 0 <= CUT_TABLE[j] <= 4
  {
    forall j | 0 <= j < |CUT_TABLE|
      ensures 0 <= CUT_TABLE[j] <= 4
    {
      CutTableEntry(j / 9, j % 9);
    }
  }

  /** Cases c and 5 - c have opposite sides and the same crossing edges, and
      the table gives them the same triangles. */
  lemma ComplementCasesShareRows(c: nat, j: nat)
    requires c <= 5 && j < 9
    ensures CUT_TABLE[c * 9 + j] == CUT_TABLE[(5 - c) * 9 + j]
  {
    CutTableEntry(c, j);
    CutTableEntry(5 - c, j);
  }

  /** Every row indexes the five points. */
  lemma CutRowInBounds(c: nat)
    requires c <= 5
    ensures |CutRow(c)| == 9 && forall j :: 0 <= j < 9 ==> 0 <= CutRow(c)[j] <= 4
  {
    forall j | 0 <= j < 9
      ensures 0 <= CutRow(c)[j] <= 4
    {
      CutTableInBounds();
      CutTableEntry(c, j);
    }
  }

  /** Triangle t of a row: the points its three entries index. */
  function RowTriangle(points: seq<Slot>, row: seq<int>, t: nat): (r: seq<Slot>)
    requires |points| == 5 && |row| == 9 && t < 3
    requires forall j :: 0 <= j < 9 ==> 0 <= row[j] <= 4
    ensures |r| == 3 && forall v :: 0 <= v < 3 ==> r[v] == points[row[t * 3 + v]]
  {
    [points[row[t * 3]], points[row[t * 3 + 1]], points[row[t * 3 + 2]]]
  }

  /** The three triangles of a cut, as points. */
  function CutTriangles(side: seq<bool>): (r: seq<seq<Slot>>)
    requires ValidSides(side) && Mixed(side)
    ensures |r| == 3 && forall t :: 0 <= t < 3 ==> |r[t]| == 3
  {
    TwoCrossings(side);
    CutCaseInRange(side);
    CutRowInBounds(CutCase(side));
    var row := CutRow(CutCase(side));
    [RowTriangle(CutPoints(side), row, 0), RowTriangle(CutPoints(side), row, 1), RowTriangle(CutPoints(side), row, 2)]
  }

  /** Point v of triangle t of the cut is the point the table names for it. */
  lemma CutTriangleEntry(side: seq<bool>, t: nat, v: nat)
    requires ValidSides(side) && Mixed(side) && t < 3 && v < 3
    ensures 0 <= CutCase(side) <= 5 && |CutPoints(side)| == 5
    ensures 0 <= CutRow(CutCase(side))[t * 3 + v] <= 4
    ensures CutTriangles(side)[t][v] == CutPoints(side)[CutRow(CutCase(side))[t * 3 + v]]
  {
    TwoCrossings(side);
    CutCaseInRange(side);
    CutRowInBounds(CutCase(side));
  }

  /** The corner alone on its side of the border. */
  function LoneCorner(side: seq<bool>): (k: nat)
    requires ValidSides(side) && Mixed(side)
    ensures k < 3 && side[k] != side[(k + 1) % 3] && side[(k + 1) % 3] == side[(k + 2) % 3]
  {
    if side[1] == side[2] then 0 else if side[0] == side[2] then 1 else 2
  }

  /** The cut written out by hand for each lone corner: the lone corner
      makes one triangle with the two crossing points, and the other two
      corners make two triangles with them. */
  function ExpectedCut(lone: nat): seq<seq<Slot>>
    requires lone < 3
  {
    var c0, c1, c2 := Corner(0), Corner(1), Corner(2);
    var e01, e12, e20 := OnEdge(0, 1), OnEdge(1, 2), OnEdge(2, 0);
    if lone == 0 then [[c0, e01, e20], [e01, c1, e20], [c1, c2, e20]]
    else if lone == 1 then [[c0, e01, e12], [e01, c1, e12], [e12, c2, c0]]
    else [[c0, c1, e12], [e12, e20, c0], [e12, c2, e20]]
  }

  /** The table gives, for each of the six cut cases, the cut written out by
      hand; in particular a case and its complement cut the same way. */
  lemma CutMatchesExpected(side: seq<bool>)
    requires ValidSides(side) && Mixed(side)
    ensures CutTriangles(side) == ExpectedCut(LoneCorner(side))
  {
    TwoCrossings(side);
    var e01, e12, e20 := OnEdge(0, 1), OnEdge(1, 2), OnEdge(2, 0);
    var c0, c1, c2 := Corner(0), Corner(1), Corner(2);
    assert CrossingSlots(side, 1) == (if Crosses(side, 0) then [e01] else []);
    assert CrossingSlots(side, 2) == CrossingSlots(side, 1) + (if Crosses(side, 1) then [e12] else []);
    assert CrossingSlots(side, 3) == CrossingSlots(side, 2) + (if Crosses(side, 2) then [e20] else []);
    if side[0] && !side[1] && !side[2] {
      assert CutCase(side) == 0 && CutPoints(side) == [c0, c1, c2, e01, e20];
    } else if !side[0] && side[1] && !side[2] {
      assert CutCase(side) == 1 && CutPoints(side) == [c0, c1, c2, e01, e12];
    } else if side[0] && side[1] && !side[2] {
      assert CutCase(side) == 2 && CutPoints(side) == [c0, c1, c2, e12, e20];
    } else if !side[0] && !side[1] && side[2] {
      assert CutCase(side) == 3 && CutPoints(side) == [c0, c1, c2, e12, e20];
    } else if side[0] && !side[1] && side[2] {
      assert CutCase(side) == 4 && CutPoints(side) == [c0, c1, c2, e01, e12];
    } else {
      assert CutCase(side) == 5 && CutPoints(side) == [c0, c1, c2, e01, e20];
    }
  }

  /** The point of the cut: no output triangle has one corner inside and
      another outside; every corner and both crossing points are used; and
      no triangle repeats a point. */
  lemma CutSeparatesSides(side: seq<bool>)
    requires ValidSides(side) && Mixed(side)
    ensures forall t, v, w ::
              0 <= t < 3 && 0 <= v < 3 && 0 <= w < 3 && CutTriangles(side)[t][v].Corner? && CutTriangles(side)[t][w].Corner? ==>
                && CutTriangles(side)[t][v].k < 3 && CutTriangles(side)[t][w].k < 3
                && side[CutTriangles(side)[t][v].k] == side[CutTriangles(side)[t][w].k]
    ensures forall p :: p in CutPoints(side) ==> p in CutTriangles(side)[0] + CutTriangles(side)[1] + CutTriangles(side)[2]
    ensures forall t, v, w :: 0 <= t < 3 && 0 <= v < w < 3 ==> CutTriangles(side)[t][v] != CutTriangles(side)[t][w]
  {
    CutMatchesExpected(side);
    TwoCrossings(side);
    assert CrossingSlots(side, 3) == CrossingSlots(side, 2) + (if Crosses(side, 2) then [OnEdge(2, 0)] else []);
    assert CrossingSlots(side, 2) == CrossingSlots(side, 1) + (if Crosses(side, 1) then [OnEdge(1, 2)] else []);
  }

  /** Which corners of the input triangle are inside the widened view. */
  function CornerSides(corners: seq<Vec4>, mvp: Mat4): (r: seq<bool>)
    requires |corners| == 3
    ensures ValidSides(r)
  {
    seq(3, i requires 0 <= i < 3 => ProjectAndCheckVisibility(corners[i], mvp, CUT_MARGIN).visible)
  }

  /** The corners after projection. */
  function CornerProjections(corners: seq<Vec4>, mvp: Mat4): (r: seq<Projected>)
    requires |corners| == 3
    ensures |r| == 3
  {
    seq(3, i requires 0 <= i < 3 => ProjectAndCheckVisibility(corners[i], mvp, CUT_MARGIN).projected)
  }

  /** The input triangle, emitted unchanged with its own annexes. */
  function Unchanged(annexes: seq<Vec4>): seq<seq<Emitted>>
    requires |annexes| == 3
  {
    [[Emitted(Corner(0), annexes[0]), Emitted(Corner(1), annexes[1]), Emitted(Corner(2), annexes[2])]]
  }

  /** The three triangles of a cut, emitted with a zero annexe. */
  function CutPrimitives(side: seq<bool>): seq<seq<Emitted>>
    requires ValidSides(side) && Mixed(side)
  {
    seq(3, t requires 0 <= t < 3 => seq(3, v requires 0 <= v < 3 => Emitted(CutTriangles(side)[t][v], ZERO)))
  }

  /** The geometry shader for one input triangle: `corners` are the input
      positions, `annexes` the annexes they carry. Returns the primitives it
      emits, each a triangle strip of three vertices: the triangle itself,
      unless it straddles the border and `normal.z >= 0` fails (a negative
      or NaN normal), in which case its cut. */
  method GeometryFeedback(corners: seq<Vec4>, annexes: seq<Vec4>, mvp: Mat4) returns (primitives: seq<seq<Emitted>>)
    requires |corners| == 3 && |annexes| == 3
    ensures var side := CornerSides(corners, mvp);
      var projected := CornerProjections(corners, mvp);
      if !Mixed(side) || AtLeastZero(NormalZSign(projected[0], projected[1], projected[2])) then
        primitives == Unchanged(annexes)
      else
        primitives == CutPrimitives(side)
  {
    var projectedVertices, side, verticesInside, cutCase := ClassifyCorners(corners, mvp);
    var normal := NormalZSign(projectedVertices[0], projectedVertices[1], projectedVertices[2]);
    if verticesInside == 0 || verticesInside == 3 || AtLeastZero(normal) {
      primitives := EmitUnchanged(annexes);
    } else {
      primitives := EmitCut(side, cutCase);
    }
  }

  /** The first loop of the shader: project each corner, note its side, and
      build the cut case from the inside corners. */
  method ClassifyCorners(corners: seq<Vec4>, mvp: Mat4)
    returns (projected: seq<Projected>, sides: seq<bool>, verticesInside: int, cutCase: int)
    requires |corners| == 3
    ensures projected == CornerProjections(corners, mvp)
    ensures sides == CornerSides(corners, mvp)
    ensures verticesInside == InsideCount(sides) && 0 <= verticesInside <= 3
    ensures cutCase == CutCase(sides)
  {
    var projectedVertices := new Projected[3](_ => NonFinite);
    var side := new bool[3](_ => false);
    verticesInside := 0;
    cutCase := 0;
    for i := 0 to 3
      invariant forall j :: 0 <= j < i ==>
        && projectedVertices[j] == ProjectAndCheckVisibility(corners[j], mvp, CUT_MARGIN).projected
        && side[j] == ProjectAndCheckVisibility(corners[j], mvp, CUT_MARGIN).visible
      invariant forall j :: i <= j < 3 ==> !side[j]
      invariant verticesInside == InsideCount(side[..])
      invariant cutCase == CutCase(side[..]) + 1
    {
      var r := ProjectAndCheckVisibility(corners[i], mvp, CUT_MARGIN);
      projectedVertices[i] := r.projected;
      side[i] := r.visible;
      if side[i] {
        verticesInside := verticesInside + 1;
        cutCase := cutCase + Bit(i);
      }
    }
    cutCase := cutCase - 1;
    projected := projectedVertices[..];
    sides := side[..];
  }

  /** The pass-through branch: emit the three input vertices. */
  method EmitUnchanged(annexes: seq<Vec4>) returns (primitives: seq<seq<Emitted>>)
    requires |annexes| == 3
    ensures primitives == Unchanged(annexes)
  {
    var primitive := [];
    for i := 0 to 3
      invariant primitive == seq(i, j requires 0 <= j < i => Emitted(Corner(j), annexes[j]))
    {
      primitive := primitive + [Emitted(Corner(i), annexes[i])];
    }
    assert primitive == [Emitted(Corner(0), annexes[0]), Emitted(Corner(1), annexes[1]), Emitted(Corner(2), annexes[2])];
    primitives := [primitive];
  }

  /** The five points of the cut: the corners, then one crossing point for
      each edge that changes side, in edge order. */
  method FillCutPoints(side: seq<bool>) returns (vertices: array<Slot>)
    requires ValidSides(side) && Mixed(side)
    ensures fresh(vertices) && vertices[..] == CutPoints(side)
  {
    TwoCrossings(side);
    vertices := new Slot[5](_ => Corner(0));
    for i := 0 to 3
      invariant forall j :: 0 <= j < i ==> vertices[j] == Corner(j)
    {
      vertices[i] := Corner(i);
    }
    var nextVertex := 3;
    for i := 0 to 3
      invariant nextVertex == 3 + |CrossingSlots(side, i)|
      invariant vertices[..nextVertex] == [Corner(0), Corner(1), Corner(2)] + CrossingSlots(side, i)
    {
      var nextId := (i + 1) % 3;
      if side[i] != side[nextId] {
        CrossingsGrow(side, i + 1);
        vertices[nextVertex] := OnEdge(i, nextId);
        nextVertex := nextVertex + 1;
      }
    }
  }

  /** The cut branch: emit three triangles, picking their points through
      the row of `cutTable` for this cut case. */
  method EmitCut(side: seq<bool>, cutCase: int) returns (primitives: seq<seq<Emitted>>)
    requires ValidSides(side) && Mixed(side) && cutCase == CutCase(side)
    ensures primitives == CutPrimitives(side)
  {
    var vertices := FillCutPoints(side);
    primitives := [];
    for t := 0 to 3
      invariant primitives == seq(t, t' requires 0 <= t' < t => seq(3, v requires 0 <= v < 3 => Emitted(CutTriangles(side)[t'][v], ZERO)))
      invariant vertices[..] == CutPoints(side)
    {
      var primitive := EmitCutTriangle(side, cutCase, vertices, t);
      primitives := primitives + [primitive];
    }
  }

  /** One triangle strip of the cut: the points row `cutCase` of the table
      names for triangle t. */
  method EmitCutTriangle(side: seq<bool>, cutCase: int, vertices: array<Slot>, t: nat) returns (primitive: seq<Emitted>)
    requires ValidSides(side) && Mixed(side) && cutCase == CutCase(side)
    requires vertices[..] == CutPoints(side) && t < 3
    ensures primitive == seq(3, v requires 0 <= v < 3 => Emitted(CutTriangles(side)[t][v], ZERO))
  {
    primitive := [];
    for v := 0 to 3
      invariant |primitive| == v
      invariant forall v' :: 0 <= v' < v ==> primitive[v'] == Emitted(CutTriangles(side)[t][v'], ZERO)
    {
      CutTriangleEntry(side, t, v);
      CutTableEntry(cutCase, t * 3 + v);
      var currentIndex := CUT_TABLE[cutCase * 9 + t * 3 + v];
      assert vertices[currentIndex] == vertices[..][currentIndex];
      primitive := primitive + [Emitted(vertices[currentIndex], ZERO)];
    }
  }

  /** The crossings seen so far never outnumber those of the whole triangle. */
  lemma {:induction false} CrossingsGrow(side: seq<bool>, upTo: nat)
    requires ValidSides(side) && upTo <= 3
    ensures |CrossingSlots(side, upTo)| <= |CrossingSlots(side, 3)|
    decreases 3 - upTo
  {
    if upTo < 3 {
      CrossingsGrow(side, upTo + 1);
    }
  }
}
