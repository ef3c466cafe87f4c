/** The tessellated box is wound outward and has the volume a box has. */
module MeshBox {
  import opened Prelude
  import opened MeshVolume

  /** A box with the given sides, centered at the origin. */
  function BoxPositions(d: Vec3): seq<Vec3> {
    var x, y, z := d.x / 2.0, d.y / 2.0, d.z / 2.0;
    [Vec3(-x, -y, -z), Vec3(x, -y, -z), Vec3(x, y, -z), Vec3(-x, y, -z),
     Vec3(-x, -y, z), Vec3(x, -y, z), Vec3(x, y, z), Vec3(-x, y, z)]
  }

  /** Two triangles for each side, from the last one pushed to the first. */
  function Right(): seq<nat> { [1, 2, 6, 1, 6, 5] + [] }
  function Left(): seq<nat> { [0, 4, 7, 0, 7, 3] + Right() }
  function Back(): seq<nat> { [3, 7, 6, 3, 6, 2] + Left() }
  function Front(): seq<nat> { [0, 1, 5, 0, 5, 4] + Back() }
  function Top(): seq<nat> { [4, 5, 6, 4, 6, 7] + Front() }
  function BoxIndices(): seq<nat> { [0, 3, 2, 0, 2, 1] + Top() }

  lemma TwoMore(p: seq<Vec3>, a: nat, b: nat, c: nat, d: nat, e: nat, f: nat, rest: seq<nat>)
    requires a < |p| && b < |p| && c < |p| && d < |p| && e < |p| && f < |p| && InRange(rest, |p|)
    ensures InRange([a, b, c, d, e, f] + rest, |p|)
    ensures DetSum(p, [a, b, c, d, e, f] + rest) == Det(p[a], p[b], p[c]) + Det(p[d], p[e], p[f]) + DetSum(p, rest)
  {
    var all := [a, b, c, d, e, f] + rest;
    assert all[3..] == [d, e, f] + rest;
    assert all[3..][3..] == rest;
  }

  /** The box of one octant. */
  function Octant(d: Vec3): real {
    d.x / 2.0 * (d.y / 2.0) * (d.z / 2.0)
  }

  /** The tetrahedron over the origin and a triangle of a side: four of the six sixths of the octant's box. */
  lemma BottomAndTop(d: Vec3)
    ensures var p := BoxPositions(d);
            && Det(p[0], p[3], p[2]) == 4.0 * Octant(d) && Det(p[0], p[2], p[1]) == 4.0 * Octant(d)
            && Det(p[4], p[5], p[6]) == 4.0 * Octant(d) && Det(p[4], p[6], p[7]) == 4.0 * Octant(d)
  {
    ZSides(d.x / 2.0, d.y / 2.0, d.z / 2.0);
  }

  lemma FrontAndBack(d: Vec3)
    ensures var p := BoxPositions(d);
            && Det(p[0], p[1], p[5]) == 4.0 * Octant(d) && Det(p[0], p[5], p[4]) == 4.0 * Octant(d)
            && Det(p[3], p[7], p[6]) == 4.0 * Octant(d) && Det(p[3], p[6], p[2]) == 4.0 * Octant(d)
  {
    YSides(d.x / 2.0, d.y / 2.0, d.z / 2.0);
  }

  lemma LeftAndRight(d: Vec3)
    ensures var p := BoxPositions(d);
            && Det(p[0], p[4], p[7]) == 4.0 * Octant(d) && Det(p[0], p[7], p[3]) == 4.0 * Octant(d)
            && Det(p[1], p[2], p[6]) == 4.0 * Octant(d) && Det(p[1], p[6], p[5]) == 4.0 * Octant(d)
  {
    XSides(d.x / 2.0, d.y / 2.0, d.z / 2.0);
  }

  lemma ZSides(x: real, y: real, z: real)
    ensures Det(Vec3(-x, -y, -z), Vec3(-x, y, -z), Vec3(x, y, -z)) == 4.0 * (x * y * z)
    ensures Det(Vec3(-x, -y, -z), Vec3(x, y, -z), Vec3(x, -y, -z)) == 4.0 * (x * y * z)
    ensures Det(Vec3(-x, -y, z), Vec3(x, -y, z), Vec3(x, y, z)) == 4.0 * (x * y * z)
    ensures Det(Vec3(-x, -y, z), Vec3(x, y, z), Vec3(-x, y, z)) == 4.0 * (x * y * z)
  {
  }

  lemma YSides(x: real, y: real, z: real)
    ensures Det(Vec3(-x, -y, -z), Vec3(x, -y, -z), Vec3(x, -y, z)) == 4.0 * (x * y * z)
    ensures Det(Vec3(-x, -y, -z), Vec3(x, -y, z), Vec3(-x, -y, z)) == 4.0 * (x * y * z)
    ensures Det(Vec3(-x, y, -z), Vec3(-x, y, z), Vec3(x, y, z)) == 4.0 * (x * y * z)
    ensures Det(Vec3(-x, y, -z), Vec3(x, y, z), Vec3(x, y, -z)) == 4.0 * (x * y * z)
  {
  }

  lemma XSides(x: real, y: real, z: real)
    ensures Det(Vec3(-x, -y, -z), Vec3(-x, -y, z), Vec3(-x, y, z)) == 4.0 * (x * y * z)
    ensures Det(Vec3(-x, -y, -z), Vec3(-x, y, z), Vec3(-x, y, -z)) == 4.0 * (x * y * z)
    ensures Det(Vec3(x, -y, -z), Vec3(x, y, -z), Vec3(x, y, z)) == 4.0 * (x * y * z)
    ensures Det(Vec3(x, -y, -z), Vec3(x, y, z), Vec3(x, -y, z)) == 4.0 * (x * y * z)
  {
  }

  /** The sum over the last sides of the box, each adding as much. */
  ghost predicate Sums(d: Vec3, indices: seq<nat>, sides: int) {
    && |BoxPositions(d)| == 8 && InRange(indices, 8)
    && DetSum(BoxPositions(d), indices) == 8.0 * (sides as real) * Octant(d)
  }

  lemma EightCorners(d: Vec3)
    ensures |BoxPositions(d)| == 8 && InRange([], 8) && DetSum(BoxPositions(d), []) == 0.0
  {
  }

  lemma Upright(d: Vec3)
    ensures Sums(d, Left(), 2)
  {
    hide Det, DetSum, BoxPositions, Octant;
    var p := BoxPositions(d);
    EightCorners(d);
    LeftAndRight(d);
    TwoMore(p, 1, 2, 6, 1, 6, 5, []);
    TwoMore(p, 0, 4, 7, 0, 7, 3, Right());
  }

  lemma UpToFront(d: Vec3)
    ensures Sums(d, Front(), 4)
  {
    hide Det, DetSum, BoxPositions, Octant, Left;
    var p := BoxPositions(d);
    Upright(d);
    FrontAndBack(d);
    TwoMore(p, 3, 7, 6, 3, 6, 2, Left());
    TwoMore(p, 0, 1, 5, 0, 5, 4, Back());
  }

  lemma AllSides(d: Vec3)
    ensures Sums(d, BoxIndices(), 6)
  {
    hide Det, DetSum, BoxPositions, Octant, Front;
    var p := BoxPositions(d);
    UpToFront(d);
    BottomAndTop(d);
    TwoMore(p, 4, 5, 6, 4, 6, 7, Front());
    TwoMore(p, 0, 3, 2, 0, 2, 1, Top());
  }

  /** The signed volume of the box is the product of its sides: the winding is outward. */
  lemma BoxVolume(d: Vec3)
    ensures InRange(BoxIndices(), |BoxPositions(d)|)
    ensures SignedVolume(BoxPositions(d), BoxIndices()) == d.x * d.y * d.z
  {
    hide Det, DetSum, BoxPositions, BoxIndices;
    AllSides(d);
    Halves(d);
  }

  lemma Halves(d: Vec3)
    ensures 8.0 * (6 as real) * Octant(d) / 6.0 == d.x * d.y * d.z
  {
  }

  /** The tetrahedron over the origin and three axis points has a sixth of their box. */
  lemma TetrahedronVolume(a: real, b: real, c: real)
    ensures SignedVolume([Vec3(a, 0.0, 0.0), Vec3(0.0, b, 0.0), Vec3(0.0, 0.0, c)], [0, 1, 2]) == a * b * c / 6.0
  {
    var p := [Vec3(a, 0.0, 0.0), Vec3(0.0, b, 0.0), Vec3(0.0, 0.0, c)];
    var indices: seq<nat> := [0, 1, 2];
    assert indices[3..] == [];
    assert DetSum(p, indices) == Det(p[0], p[1], p[2]) + DetSum(p, []);
  }

  /** The method that measures a mesh, on the box. */
  method MeasureBox(d: Vec3) returns (v: real)
    ensures v == d.x * d.y * d.z
  {
    BoxVolume(d);
    var m := new Mesh(BoxPositions(d), BoxIndices());
    v := m.ComputeVolume();
  }
}
