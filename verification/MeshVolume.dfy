/**
 Indexed triangle meshes over exact reals: placement and the divergence-theorem volume.
 On a mesh whose directed edges cancel in pairs the volume does not feel translation.
 */
module MeshVolume {
  import opened Prelude

  type EdgeT = (nat, nat)

  function Shift(p: Vec3, d: Vec3): Vec3 {
    Vec3(p.x + d.x, p.y + d.y, p.z + d.z)
  }

  function Stretch(p: Vec3, s: Vec3): Vec3 {
    Vec3(p.x * s.x, p.y * s.y, p.z * s.z)
  }

  /** Six times the signed volume of the tetrahedron spanned with the origin. */
  function Det(a: Vec3, b: Vec3, c: Vec3): real {
    a.x * (b.y * c.z - b.z * c.y) + a.y * (b.z * c.x - b.x * c.z) + a.z * (b.x * c.y - b.y * c.x)
  }

  predicate InRange(indices: seq<nat>, count: nat) {
    forall i :: 0 <= i < |indices| ==> indices[i] < count
  }

  /** The sum over all whole triangles; one or two indices left over are ignored. */
  function DetSum(positions: seq<Vec3>, indices: seq<nat>): real
    requires InRange(indices, |positions|)
    decreases |indices|
  {
    if |indices| < 3 then 0.0
    else Det(positions[indices[0]], positions[indices[1]], positions[indices[2]]) + DetSum(positions, indices[3..])
  }

  function SignedVolume(positions: seq<Vec3>, indices: seq<nat>): real
    requires InRange(indices, |positions|)
  {
    DetSum(positions, indices) / 6.0
  }

  /** The directed edges of all triangles, in order. */
  function Edges(indices: seq<nat>): (r: seq<EdgeT>)
    decreases |indices|
  {
    if |indices| < 3 then []
    else [(indices[0], indices[1]), (indices[1], indices[2]), (indices[2], indices[0])] + Edges(indices[3..])
  }

  function Turn(e: EdgeT): EdgeT {
    (e.1, e.0)
  }

  function Turned(es: seq<EdgeT>): seq<EdgeT> {
    if es == [] then [] else [Turn(es[0])] + Turned(es[1..])
  }

  /** Every directed edge is matched by as many edges the other way. */
  ghost predicate Cancelling(indices: seq<nat>) {
    multiset(Edges(indices)) == multiset(Turned(Edges(indices)))
  }

  // ----- the mesh object -----------------------------------------------------------

  class Mesh {
    var positions: seq<Vec3>
    var indices: seq<nat>

    constructor (positions: seq<Vec3>, indices: seq<nat>)
      ensures this.positions == positions && this.indices == indices
    {
      this.positions, this.indices := positions, indices;
    }

    method Translate(d: Vec3)
      modifies this`positions
      ensures |positions| == |old(positions)|
      ensures forall i :: 0 <= i < |positions| ==> positions[i] == Shift(old(positions)[i], d)
    {
      var i := 0;
      while i < |positions|
        invariant 0 <= i <= |positions| == |old(positions)|
        invariant forall k :: 0 <= k < i ==> positions[k] == Shift(old(positions)[k], d)
        invariant forall k :: i <= k < |positions| ==> positions[k] == old(positions)[k]
      {
        var p := positions[i];
        positions := positions[i := Vec3(p.x + d.x, p.y + d.y, p.z + d.z)];
        i := i + 1;
      }
    }

    method Scale(s: Vec3)
      modifies this`positions
      ensures |positions| == |old(positions)|
      ensures forall i :: 0 <= i < |positions| ==> positions[i] == Stretch(old(positions)[i], s)
    {
      var i := 0;
      while i < |positions|
        invariant 0 <= i <= |positions| == |old(positions)|
        invariant forall k :: 0 <= k < i ==> positions[k] == Stretch(old(positions)[k], s)
        invariant forall k :: i <= k < |positions| ==> positions[k] == old(positions)[k]
      {
        var p := positions[i];
        positions := positions[i := Vec3(p.x * s.x, p.y * s.y, p.z * s.z)];
        i := i + 1;
      }
    }

    method ComputeVolume() returns (v: real)
      requires InRange(indices, |positions|)
      ensures v == SignedVolume(positions, indices)
    {
      v := 0.0;
      var i := 0;
      assert indices[0..] == indices;
      while i + 3 <= |indices|
        invariant 0 <= i <= |indices|
        invariant v + DetSum(positions, indices[i..]) == DetSum(positions, indices)
      {
        assert indices[i..][0] == indices[i] && indices[i..][1] == indices[i + 1] && indices[i..][2] == indices[i + 2];
        assert indices[i..][3..] == indices[i + 3..];
        v := v + Det(positions[indices[i]], positions[indices[i + 1]], positions[indices[i + 2]]);
        i := i + 3;
      }
      v := v / 6.0;
    }

    /**
     Placing a stored mesh: scale, then move. On a closed mesh the volume is that of the
     stored mesh times the three scale factors, wherever the object stands.
     */
    method Place(scale: Vec3, position: Vec3)
      requires InRange(indices, |positions|) && Cancelling(indices)
      modifies this`positions
      ensures |positions| == |old(positions)|
      ensures forall i :: 0 <= i < |positions| ==> positions[i] == Shift(Stretch(old(positions)[i], scale), position)
      ensures SignedVolume(positions, indices) == Times(Factor(scale), SignedVolume(old(positions), indices))
    {
      ghost var p0 := positions;
      Scale(scale);
      ghost var p1 := positions;
      Translate(position);
      ScaledVolume(p0, p1, indices, scale);
      TranslatedVolume(p1, positions, indices, position);
    }
  }

  /** Every coordinate of a placed vertex, and the factor of the volume. */
  lemma PlacedVertex(p: Vec3, scale: Vec3, position: Vec3, volume: real)
    ensures var q := Shift(Stretch(p, scale), position);
            && q.x == p.x * scale.x + position.x && q.y == p.y * scale.y + position.y && q.z == p.z * scale.z + position.z
    ensures Times(Factor(scale), volume) == scale.x * scale.y * scale.z * volume
  {
  }

  // ----- scaling -------------------------------------------------------------------

  /** The three axes' product, the factor by which scaling changes every triple product. */
  function Factor(s: Vec3): real {
    s.x * s.y * s.z
  }

  function Times(k: real, x: real): real {
    k * x
  }

  /** One of the three terms of a triple product. */
  function Cofactor(x: real, y: real, z: real, u: real, v: real): real {
    x * (y * z - u * v)
  }

  lemma DetTerms(a: Vec3, b: Vec3, c: Vec3)
    ensures Det(a, b, c)
         == Cofactor(a.x, b.y, c.z, b.z, c.y) + Cofactor(a.y, b.z, c.x, b.x, c.z) + Cofactor(a.z, b.x, c.y, b.y, c.x)
  {
  }

  lemma CofactorStretch(x: real, y: real, z: real, u: real, v: real, i: real, j: real, k: real)
    ensures Cofactor(x * i, y * j, z * k, u * k, v * j) == Times(i * j * k, Cofactor(x, y, z, u, v))
  {
    Regroup(y, j, z, k);
    Regroup(v, j, u, k);
    assert Times(j * k, y * z - v * u) == Times(j * k, y * z) - Times(j * k, v * u);
    Regroup(x, i, y * z - v * u, j * k);
    Associate(i, j, k);
  }

  lemma Associate(a: real, b: real, c: real)
    ensures (a * b) * c == a * (b * c)
  {
  }

  lemma Regroup(a: real, b: real, c: real, d: real)
    ensures (a * b) * (c * d) == (b * d) * (a * c) && (a * b) * (d * c) == (b * d) * (a * c)
  {
    Associate(a, b, c * d);
    Associate(b, c, d);
    Associate(c, b, d);
    Associate(a, c, b * d);
  }

  lemma FactorTurns(s: Vec3)
    ensures s.x * s.y * s.z == Factor(s) && s.y * s.z * s.x == Factor(s) && s.z * s.x * s.y == Factor(s)
  {
  }

  lemma ThreeTerms(f: real, x: real, y: real, z: real)
    ensures Times(f, x) + Times(f, y) + Times(f, z) == Times(f, x + y + z)
  {
    Distribute(f, x, y);
    Distribute(f, x + y, z);
  }

  lemma CofactorScaled(x: real, y: real, z: real, u: real, v: real, i: real, j: real, k: real, f: real,
                       x': real, y': real, z': real, u': real, v': real)
    requires i * j * k == f
    requires x' == x * i && y' == y * j && z' == z * k && u' == u * k && v' == v * j
    ensures Cofactor(x', y', z', u', v') == Times(f, Cofactor(x, y, z, u, v))
  {
    CofactorStretch(x, y, z, u, v, i, j, k);
  }

  lemma DetStretch(a: Vec3, b: Vec3, c: Vec3, s: Vec3)
    ensures Det(Stretch(a, s), Stretch(b, s), Stretch(c, s)) == Times(Factor(s), Det(a, b, c))
  {
    hide Cofactor, Times, Factor, Det;
    var f := Factor(s);
    var p, q, r := Stretch(a, s), Stretch(b, s), Stretch(c, s);
    FactorTurns(s);
    CofactorScaled(a.x, b.y, c.z, b.z, c.y, s.x, s.y, s.z, f, p.x, q.y, r.z, q.z, r.y);
    CofactorScaled(a.y, b.z, c.x, b.x, c.z, s.y, s.z, s.x, f, p.y, q.z, r.x, q.x, r.z);
    CofactorScaled(a.z, b.x, c.y, b.y, c.x, s.z, s.x, s.y, f, p.z, q.x, r.y, q.y, r.x);
    DetTerms(a, b, c);
    DetTerms(p, q, r);
    ThreeTerms(f, Cofactor(a.x, b.y, c.z, b.z, c.y), Cofactor(a.y, b.z, c.x, b.x, c.z), Cofactor(a.z, b.x, c.y, b.y, c.x));
  }

  lemma Distribute(k: real, a: real, b: real)
    ensures Times(k, a + b) == Times(k, a) + Times(k, b)
  {
  }

  lemma {:induction false} DetSumStretch(p: seq<Vec3>, q: seq<Vec3>, indices: seq<nat>, s: Vec3)
    requires |p| == |q| && InRange(indices, |p|)
    requires forall i :: 0 <= i < |p| ==> q[i] == Stretch(p[i], s)
    ensures DetSum(q, indices) == Times(Factor(s), DetSum(p, indices))
    decreases |indices|
  {
    if |indices| >= 3 {
      DetStretch(p[indices[0]], p[indices[1]], p[indices[2]], s);
      DetSumStretch(p, q, indices[3..], s);
      Distribute(Factor(s), Det(p[indices[0]], p[indices[1]], p[indices[2]]), DetSum(p, indices[3..]));
    }
  }

  /** Scaling multiplies the volume of any mesh by the product of the factors. */
  lemma ScaledVolume(p: seq<Vec3>, q: seq<Vec3>, indices: seq<nat>, s: Vec3)
    requires |p| == |q| && InRange(indices, |p|)
    requires forall i :: 0 <= i < |p| ==> q[i] == Stretch(p[i], s)
    ensures SignedVolume(q, indices) == Times(Factor(s), SignedVolume(p, indices))
  {
    DetSumStretch(p, q, indices, s);
    TimesSixth(Factor(s), DetSum(p, indices));
  }

  lemma TimesSixth(k: real, d: real)
    ensures Times(k, d) / 6.0 == Times(k, d / 6.0)
  {
  }

  // ----- translation ---------------------------------------------------------------

  /** What one directed edge adds to the volume when the mesh moves by `d`. */
  function Weight(d: Vec3, p: Vec3, q: Vec3): real {
    d.x * (p.y * q.z - p.z * q.y) + d.y * (p.z * q.x - p.x * q.z) + d.z * (p.x * q.y - p.y * q.x)
  }

  function EdgeWeight(positions: seq<Vec3>, d: Vec3, e: EdgeT): real
    requires e.0 < |positions| && e.1 < |positions|
  {
    Weight(d, positions[e.0], positions[e.1])
  }

  predicate EdgesInRange(es: seq<EdgeT>, count: nat) {
    forall i :: 0 <= i < |es| ==> es[i].0 < count && es[i].1 < count
  }

  function WeightSum(positions: seq<Vec3>, d: Vec3, es: seq<EdgeT>): real
    requires EdgesInRange(es, |positions|)
  {
    if es == [] then 0.0 else EdgeWeight(positions, d, es[0]) + WeightSum(positions, d, es[1..])
  }

  lemma DetShift(a: Vec3, b: Vec3, c: Vec3, d: Vec3)
    ensures Det(Shift(a, d), Shift(b, d), Shift(c, d)) == Det(a, b, c) + Weight(d, a, b) + Weight(d, b, c) + Weight(d, c, a)
  {
  }

  lemma WeightTurn(positions: seq<Vec3>, d: Vec3, e: EdgeT)
    requires e.0 < |positions| && e.1 < |positions|
    ensures EdgeWeight(positions, d, Turn(e)) == -EdgeWeight(positions, d, e)
  {
  }

  lemma {:induction false} EdgesInRangeOf(indices: seq<nat>, count: nat)
    requires InRange(indices, count)
    ensures EdgesInRange(Edges(indices), count)
    decreases |indices|
  {
    if |indices| >= 3 {
      EdgesInRangeOf(indices[3..], count);
    }
  }

  lemma {:induction false} DetSumShift(p: seq<Vec3>, q: seq<Vec3>, indices: seq<nat>, d: Vec3)
    requires |p| == |q| && InRange(indices, |p|)
    requires forall i :: 0 <= i < |p| ==> q[i] == Shift(p[i], d)
    requires EdgesInRange(Edges(indices), |p|)
    ensures DetSum(q, indices) == DetSum(p, indices) + WeightSum(p, d, Edges(indices))
    decreases |indices|
  {
    if |indices| >= 3 {
      var e0, e1, e2 := (indices[0], indices[1]), (indices[1], indices[2]), (indices[2], indices[0]);
      var rest := Edges(indices[3..]);
      EdgesInRangeOf(indices[3..], |p|);
      DetSumShift(p, q, indices[3..], d);
      DetShift(p[indices[0]], p[indices[1]], p[indices[2]], d);
      assert Edges(indices) == [e0] + ([e1] + ([e2] + rest));
      FirstWeight(p, d, e0, [e1] + ([e2] + rest));
      FirstWeight(p, d, e1, [e2] + rest);
      FirstWeight(p, d, e2, rest);
    }
  }

  lemma FirstWeight(positions: seq<Vec3>, d: Vec3, e: EdgeT, rest: seq<EdgeT>)
    requires EdgesInRange([e] + rest, |positions|)
    ensures EdgesInRange(rest, |positions|) && e.0 < |positions| && e.1 < |positions|
    ensures WeightSum(positions, d, [e] + rest) == EdgeWeight(positions, d, e) + WeightSum(positions, d, rest)
  {
    assert ([e] + rest)[0] == e && ([e] + rest)[1..] == rest;
    forall i | 0 <= i < |rest|
      ensures rest[i].0 < |positions| && rest[i].1 < |positions|
    {
      assert ([e] + rest)[i + 1] == rest[i];
    }
  }

  lemma {:induction false} TurnedNegates(positions: seq<Vec3>, d: Vec3, es: seq<EdgeT>)
    requires EdgesInRange(es, |positions|)
    ensures EdgesInRange(Turned(es), |positions|)
    ensures WeightSum(positions, d, Turned(es)) == -WeightSum(positions, d, es)
    decreases |es|
  {
    if es != [] {
      TurnedNegates(positions, d, es[1..]);
      WeightTurn(positions, d, es[0]);
      var t := [Turn(es[0])] + Turned(es[1..]);
      assert forall i :: 0 < i < |t| ==> t[i] == Turned(es[1..])[i - 1];
      assert EdgesInRange(t, |positions|);
      FirstWeight(positions, d, Turn(es[0]), Turned(es[1..]));
    }
  }

  /** Taking one edge out of the middle. */
  lemma {:induction false} WeightWithout(positions: seq<Vec3>, d: Vec3, es: seq<EdgeT>, k: nat)
    requires EdgesInRange(es, |positions|) && k < |es|
    ensures EdgesInRange(es[..k] + es[k + 1..], |positions|)
    ensures WeightSum(positions, d, es) == EdgeWeight(positions, d, es[k]) + WeightSum(positions, d, es[..k] + es[k + 1..])
    decreases k
  {
    if k == 0 {
      assert es[..0] + es[1..] == es[1..];
    } else {
      WeightWithout(positions, d, es[1..], k - 1);
      var rest := es[1..][..k - 1] + es[1..][k..];
      assert es[..k] + es[k + 1..] == [es[0]] + rest;
      assert es[1..][k - 1] == es[k];
      FirstWeight(positions, d, es[0], rest);
    }
  }

  lemma ContentsWithout(a: seq<EdgeT>, b: seq<EdgeT>, k: nat)
    requires a != [] && k < |b| && b[k] == a[0] && multiset(a) == multiset(b)
    ensures multiset(a[1..]) == multiset(b[..k] + b[k + 1..])
  {
    assert a == [a[0]] + a[1..];
    assert multiset(a) == multiset{a[0]} + multiset(a[1..]);
    assert b == b[..k] + ([b[k]] + b[k + 1..]);
    assert multiset(b) == multiset(b[..k]) + (multiset{b[k]} + multiset(b[k + 1..]));
    assert multiset(b[..k] + b[k + 1..]) == multiset(b) - multiset{b[k]};
  }

  /** The weight of a list of edges depends on its contents only. */
  lemma {:induction false} WeightOfContents(positions: seq<Vec3>, d: Vec3, a: seq<EdgeT>, b: seq<EdgeT>)
    requires EdgesInRange(a, |positions|) && EdgesInRange(b, |positions|)
    requires multiset(a) == multiset(b)
    ensures WeightSum(positions, d, a) == WeightSum(positions, d, b)
    decreases |a|
  {
    if a == [] {
      assert |multiset(b)| == |b|;
    } else {
      assert a[0] in multiset(b);
      var k :| 0 <= k < |b| && b[k] == a[0];
      WeightWithout(positions, d, b, k);
      ContentsWithout(a, b, k);
      WeightOfContents(positions, d, a[1..], b[..k] + b[k + 1..]);
    }
  }

  /** Moving a mesh whose directed edges cancel in pairs does not change its volume. */
  lemma TranslatedVolume(p: seq<Vec3>, q: seq<Vec3>, indices: seq<nat>, d: Vec3)
    requires |p| == |q| && InRange(indices, |p|) && Cancelling(indices)
    requires forall i :: 0 <= i < |p| ==> q[i] == Shift(p[i], d)
    ensures SignedVolume(q, indices) == SignedVolume(p, indices)
  {
    EdgesInRangeOf(indices, |p|);
    DetSumShift(p, q, indices, d);
    TurnedNegates(p, d, Edges(indices));
    WeightOfContents(p, d, Edges(indices), Turned(Edges(indices)));
  }
}
