/**
 Tessellated cylinders and cones over any polygon around the origin: they are wound outward,
 and their volumes are those of a prism and a pyramid.
 */
module SolidVolume {
  import opened Prelude
  import opened MeshVolume
  import opened MeshClosed
  import opened Tessellate

  /** The points of one ring, in order. */
  type Ring = r: seq<(real, real)> | |r| >= 3 witness [(0.0, 0.0), (0.0, 0.0), (0.0, 0.0)]

  /** Twice the signed area of the triangle over the origin and side `k` of the polygon. */
  function Side(ring: Ring, k: nat): real
    requires k < |ring|
  {
    var p, q := ring[k], ring[Succ(k, |ring|)];
    p.0 * q.1 - q.0 * p.1
  }

  function Sides(ring: Ring, k: nat): real
    requires k <= |ring|
  {
    if k == 0 then 0.0 else Sides(ring, k - 1) + Side(ring, k - 1)
  }

  /** The shoelace formula: positive when the points go around counterclockwise. */
  function Area(ring: Ring): real {
    Sides(ring, |ring|) / 2.0
  }

  lemma {:induction false} DetSumConcat(p: seq<Vec3>, a: seq<nat>, b: seq<nat>)
    requires InRange(a, |p|) && InRange(b, |p|) && |a| % 3 == 0
    ensures InRange(a + b, |p|) && DetSum(p, a + b) == DetSum(p, a) + DetSum(p, b)
    decreases |a|
  {
    if a == [] {
      assert a + b == b;
    } else {
      assert (a + b)[3..] == a[3..] + b;
      DetSumConcat(p, a[3..], b);
    }
  }

  lemma DetOne(p: seq<Vec3>, a: nat, b: nat, c: nat)
    requires a < |p| && b < |p| && c < |p|
    ensures DetSum(p, [a, b, c]) == Det(p[a], p[b], p[c])
  {
    assert [a, b, c][3..] == [];
  }

  lemma DetTwo(p: seq<Vec3>, a: nat, b: nat, c: nat, d: nat, e: nat, f: nat)
    requires a < |p| && b < |p| && c < |p| && d < |p| && e < |p| && f < |p|
    ensures DetSum(p, [a, b, c, d, e, f]) == Det(p[a], p[b], p[c]) + Det(p[d], p[e], p[f])
  {
    assert [a, b, c, d, e, f] == [a, b, c] + [d, e, f];
    DetSumConcat(p, [a, b, c], [d, e, f]);
    DetOne(p, a, b, c);
    DetOne(p, d, e, f);
  }

  // ----- cone -------------------------------------------------------------------------------

  /** The base ring at height `-h`, the apex at `h`, the center of the base. */
  function ConePositions(ring: Ring, h: real): seq<Vec3> {
    seq(|ring|, i requires 0 <= i < |ring| => Vec3(ring[i].0, ring[i].1, -h)) + [Vec3(0.0, 0.0, h), Vec3(0.0, 0.0, -h)]
  }

  lemma FlankAndBase(x0: real, y0: real, x1: real, y1: real, h: real)
    ensures Det(Vec3(x0, y0, -h), Vec3(x1, y1, -h), Vec3(0.0, 0.0, h)) == h * (x0 * y1 - x1 * y0)
    ensures Det(Vec3(0.0, 0.0, -h), Vec3(x1, y1, -h), Vec3(x0, y0, -h)) == h * (x0 * y1 - x1 * y0)
  {
  }

  lemma ConeSegment(ring: Ring, h: real, k: nat)
    requires k < |ring|
    ensures var p, n := ConePositions(ring, h), |ring|;
            && DetSum(p, [k, Succ(k, n), n]) == h * Side(ring, k)
            && DetSum(p, [n + 1, Succ(k, n), k]) == h * Side(ring, k)
  {
    var p, n, j := ConePositions(ring, h), |ring|, Succ(k, |ring|);
    FlankAndBase(ring[k].0, ring[k].1, ring[j].0, ring[j].1, h);
    DetOne(p, k, j, n);
    DetOne(p, n + 1, j, k);
  }

  /** One more segment. */
  lemma ConeNext(ring: Ring, h: real, k: nat)
    requires k < |ring| && |ConeList(|ring|, k)| % 3 == 0 && InRange(ConeList(|ring|, k), |ring| + 2)
    ensures var p, n := ConePositions(ring, h), |ring|;
            && |ConeList(n, k + 1)| % 3 == 0 && InRange(ConeList(n, k + 1), n + 2)
            && DetSum(p, ConeList(n, k + 1)) == DetSum(p, ConeList(n, k)) + h * Side(ring, k) + h * Side(ring, k)
  {
    hide Det, DetSum, Side;
    var p, n := ConePositions(ring, h), |ring|;
    var start, flank, base := ConeList(n, k), [k, Succ(k, n), n], [n + 1, Succ(k, n), k];
    ConeSegment(ring, h, k);
    DetSumConcat(p, start, flank);
    DetSumConcat(p, start + flank, base);
    assert ConeList(n, k + 1) == start + flank + base;
  }

  lemma ConeNothing(ring: Ring, h: real)
    ensures ConeList(|ring|, 0) == [] && InRange([], |ring| + 2) && DetSum(ConePositions(ring, h), []) == 0.0
  {
    hide Det;
  }

  lemma {:induction false} ConeSum(ring: Ring, h: real, k: nat)
    requires k <= |ring|
    ensures InRange(ConeList(|ring|, k), |ring| + 2) && |ConeList(|ring|, k)| % 3 == 0
    ensures DetSum(ConePositions(ring, h), ConeList(|ring|, k)) == Twice(h, Sides(ring, k))
  {
    hide Side, Det, Twice, ConeList, DetSum, InRange;
    if k == 0 {
      ConeNothing(ring, h);
      TwiceNothing(h);
    } else {
      ConeSum(ring, h, k - 1);
      ConeNext(ring, h, k - 1);
      TwiceMore(h, Sides(ring, k - 1), Side(ring, k - 1));
    }
  }

  function Twice(h: real, s: real): real {
    2.0 * h * s
  }

  lemma TwiceNothing(h: real)
    ensures Twice(h, 0.0) == 0.0
  {
  }

  lemma TwiceMore(h: real, a: real, b: real)
    ensures Twice(h, a) + h * b + h * b == Twice(h, a + b)
  {
  }

  /** A third of base area times height. */
  lemma ConeVolume(ring: Ring, h: real)
    ensures InRange(ConeList(|ring|, |ring|), |ConePositions(ring, h)|)
    ensures SignedVolume(ConePositions(ring, h), ConeList(|ring|, |ring|)) == Area(ring) * (2.0 * h) / 3.0
  {
    hide Side, Sides, Det, DetSum, ConeList, Twice, InRange;
    ConeSum(ring, h, |ring|);
    Third(h, Sides(ring, |ring|));
  }

  lemma Third(h: real, s: real)
    ensures Twice(h, s) / 6.0 == s / 2.0 * (2.0 * h) / 3.0
  {
  }

  /** Loops, buffers and all. */
  method MeasureCone(ring: Ring, h: real) returns (v: real)
    ensures v == Area(ring) * (2.0 * h) / 3.0
  {
    ConeVolume(ring, h);
    var indices := ConeIndices(|ring|);
    var m := new Mesh(ConePositions(ring, h), indices);
    v := m.ComputeVolume();
  }

  // ----- cylinder ---------------------------------------------------------------------------

  /** The ring at height `-h` and again at `h`, and the centers of both caps. */
  function CylinderPositions(ring: Ring, h: real): seq<Vec3> {
    seq(|ring|, i requires 0 <= i < |ring| => Vec3(ring[i].0, ring[i].1, -h))
    + seq(|ring|, i requires 0 <= i < |ring| => Vec3(ring[i].0, ring[i].1, h))
    + [Vec3(0.0, 0.0, -h), Vec3(0.0, 0.0, h)]
  }

  lemma SideAndCaps(x0: real, y0: real, x1: real, y1: real, h: real)
    ensures Det(Vec3(x0, y0, -h), Vec3(x1, y1, -h), Vec3(x1, y1, h)) == 2.0 * h * (x0 * y1 - x1 * y0)
    ensures Det(Vec3(x0, y0, -h), Vec3(x1, y1, h), Vec3(x0, y0, h)) == 2.0 * h * (x0 * y1 - x1 * y0)
    ensures Det(Vec3(0.0, 0.0, -h), Vec3(x1, y1, -h), Vec3(x0, y0, -h)) == h * (x0 * y1 - x1 * y0)
    ensures Det(Vec3(0.0, 0.0, h), Vec3(x0, y0, h), Vec3(x1, y1, h)) == h * (x0 * y1 - x1 * y0)
  {
  }

  lemma CylinderPoints(ring: Ring, h: real, k: nat)
    requires k < |ring|
    ensures var p, n := CylinderPositions(ring, h), |ring|;
            && |p| == 2 * n + 2
            && p[k] == Vec3(ring[k].0, ring[k].1, -h) && p[n + k] == Vec3(ring[k].0, ring[k].1, h)
            && p[2 * n] == Vec3(0.0, 0.0, -h) && p[2 * n + 1] == Vec3(0.0, 0.0, h)
  {
  }

  lemma CylinderSegment(ring: Ring, h: real, k: nat)
    requires k < |ring|
    ensures var p, n := CylinderPositions(ring, h), |ring|;
            var b0, b1, t0, t1 := k, Succ(k, n), n + k, n + Succ(k, n);
            && |p| == 2 * n + 2
            && DetSum(p, [b0, b1, t1, b0, t1, t0]) == 4.0 * h * Side(ring, k)
            && DetSum(p, [2 * n, b1, b0]) == h * Side(ring, k)
            && DetSum(p, [2 * n + 1, t0, t1]) == h * Side(ring, k)
  {
    hide CylinderPositions, Det;
    var p, n, j := CylinderPositions(ring, h), |ring|, Succ(k, |ring|);
    CylinderPoints(ring, h, k);
    CylinderPoints(ring, h, j);
    SideAndCaps(ring[k].0, ring[k].1, ring[j].0, ring[j].1, h);
    DetTwo(p, k, j, n + j, k, n + j, n + k);
    DetOne(p, 2 * n, j, k);
    DetOne(p, 2 * n + 1, n + k, n + j);
  }

  lemma CylinderNext(ring: Ring, h: real, k: nat)
    requires k < |ring| && |CylinderList(|ring|, k)| % 3 == 0 && InRange(CylinderList(|ring|, k), 2 * |ring| + 2)
    ensures var p, n := CylinderPositions(ring, h), |ring|;
            && |p| == 2 * n + 2 && |CylinderList(n, k + 1)| % 3 == 0 && InRange(CylinderList(n, k + 1), 2 * n + 2)
            && DetSum(p, CylinderList(n, k + 1))
            == DetSum(p, CylinderList(n, k)) + 4.0 * h * Side(ring, k) + h * Side(ring, k) + h * Side(ring, k)
  {
    hide Det, DetSum, Side, CylinderPositions;
    var p, n := CylinderPositions(ring, h), |ring|;
    CylinderSegment(ring, h, k);
    var b0, b1, t0, t1 := k, Succ(k, n), n + k, n + Succ(k, n);
    var start, side := CylinderList(n, k), [b0, b1, t1, b0, t1, t0];
    var bottom, top := [2 * n, b1, b0], [2 * n + 1, t0, t1];
    DetSumConcat(p, start, side);
    DetSumConcat(p, start + side, bottom);
    DetSumConcat(p, start + side + bottom, top);
    assert CylinderList(n, k + 1) == start + side + bottom + top;
  }

  lemma CylinderNothing(ring: Ring, h: real)
    ensures |CylinderPositions(ring, h)| == 2 * |ring| + 2 && CylinderList(|ring|, 0) == []
    ensures InRange([], 2 * |ring| + 2) && DetSum(CylinderPositions(ring, h), []) == 0.0
  {
    hide Det;
  }

  lemma {:induction false} CylinderSum(ring: Ring, h: real, k: nat)
    requires k <= |ring|
    ensures |CylinderPositions(ring, h)| == 2 * |ring| + 2
    ensures InRange(CylinderList(|ring|, k), 2 * |ring| + 2) && |CylinderList(|ring|, k)| % 3 == 0
    ensures DetSum(CylinderPositions(ring, h), CylinderList(|ring|, k)) == SixTimes(h, Sides(ring, k))
  {
    hide Side, Det, SixTimes, CylinderList, DetSum, InRange, CylinderPositions;
    if k == 0 {
      CylinderNothing(ring, h);
      SixNothing(h);
    } else {
      CylinderSum(ring, h, k - 1);
      CylinderNext(ring, h, k - 1);
      SixMore(h, Sides(ring, k - 1), Side(ring, k - 1));
    }
  }

  function SixTimes(h: real, s: real): real {
    6.0 * h * s
  }

  lemma SixNothing(h: real)
    ensures SixTimes(h, 0.0) == 0.0
  {
  }

  lemma SixMore(h: real, a: real, b: real)
    ensures SixTimes(h, a) + 4.0 * h * b + h * b + h * b == SixTimes(h, a + b)
  {
  }

  /** Base area times height: three cones of the same base and height. */
  lemma CylinderVolume(ring: Ring, h: real)
    ensures InRange(CylinderList(|ring|, |ring|), |CylinderPositions(ring, h)|)
    ensures SignedVolume(CylinderPositions(ring, h), CylinderList(|ring|, |ring|)) == Area(ring) * (2.0 * h)
  {
    hide Side, Sides, Det, DetSum, CylinderList, SixTimes, InRange, CylinderPositions;
    CylinderSum(ring, h, |ring|);
    Whole(h, Sides(ring, |ring|));
  }

  lemma Whole(h: real, s: real)
    ensures SixTimes(h, s) / 6.0 == s / 2.0 * (2.0 * h)
  {
  }

  method MeasureCylinder(ring: Ring, h: real) returns (v: real)
    ensures v == Area(ring) * (2.0 * h)
  {
    CylinderVolume(ring, h);
    var indices := CylinderIndices(|ring|);
    var m := new Mesh(CylinderPositions(ring, h), indices);
    v := m.ComputeVolume();
  }
}
