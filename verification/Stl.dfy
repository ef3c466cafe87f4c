/**
 Binary STL: the writer, and the reader that welds equal corners into an indexed mesh.
 A coordinate in memory is opaque; `narrow` quantizes it to the 32 bits of a single-precision
 number and `widen` reads such bits back.
 */
module Stl {
  import opened Prelude

  type Byte = b: int | 0 <= b < 256
  type Bits = b: int | 0 <= b < 0x1_0000_0000

  const HEADER_LEN: nat := 80
  const FACET_LEN: nat := 50
  const MAX_IMPORT_TRIANGLES: nat := 100_000

  /** Three coordinates as written to a file. */
  datatype Point = Point(x: Bits, y: Bits, z: Bits)

  /** Three coordinates in memory. */
  datatype Vertex<F> = Vertex(x: F, y: F, z: F)

  datatype Mesh<F> = Mesh(positions: seq<Vertex<F>>, indices: seq<nat>)

  /** What the codec takes from floating-point arithmetic. */
  datatype Floats<!F> = Floats(
    narrow: F -> Bits,
    widen: Bits -> F,
    normal: (Point, Point, Point) -> Point)

  /** Exponent bits all ones: infinity or NaN. */
  predicate Finite(b: Bits) {
    b / 0x80_0000 % 256 != 255
  }

  predicate FinitePoint(p: Point) {
    Finite(p.x) && Finite(p.y) && Finite(p.z)
  }

  /** Widening a finite single is exact, so narrowing takes it back. */
  ghost predicate Exact<F(!new)>(fl: Floats<F>) {
    forall b: Bits :: Finite(b) ==> fl.narrow(fl.widen(b)) == b
  }

  // ----- little-endian words ----------------------------------------------------------

  function Bytes4(b: Bits): (r: seq<Byte>)
    ensures |r| == 4
  {
    [b % 256, b / 256 % 256, b / 65536 % 256, b / 16777216 % 256]
  }

  function Word(s: seq<Byte>): Bits
    requires |s| == 4
  {
    s[0] as int + 256 * (s[1] as int) + 65536 * (s[2] as int) + 16777216 * (s[3] as int)
  }

  lemma WordBytes(b: Bits)
    ensures Word(Bytes4(b)) == b
  {
    assert b / 65536 == b / 256 / 256;
    assert b / 16777216 == b / 65536 / 256;
  }

  function WordAt(bytes: seq<Byte>, off: nat): Bits
    requires off + 4 <= |bytes|
  {
    Word(bytes[off..off + 4])
  }

  function PointAt(bytes: seq<Byte>, off: nat): Point
    requires off + 12 <= |bytes|
  {
    Point(WordAt(bytes, off), WordAt(bytes, off + 4), WordAt(bytes, off + 8))
  }

  function PointBytes(p: Point): (r: seq<Byte>)
    ensures |r| == 12
  {
    Bytes4(p.x) + Bytes4(p.y) + Bytes4(p.z)
  }

  lemma PointReads(before: seq<Byte>, p: Point, after: seq<Byte>)
    ensures PointAt(before + PointBytes(p) + after, |before|) == p
  {
    var s := before + PointBytes(p) + after;
    var n := |before|;
    assert s[n..n + 4] == Bytes4(p.x) && s[n + 4..n + 8] == Bytes4(p.y) && s[n + 8..n + 12] == Bytes4(p.z);
    WordBytes(p.x);
    WordBytes(p.y);
    WordBytes(p.z);
  }

  // ----- writer ------------------------------------------------------------------------

  predicate ValidMesh<F>(m: Mesh<F>) {
    forall i :: 0 <= i < |m.indices| ==> m.indices[i] < |m.positions|
  }

  function Quantize<F>(fl: Floats<F>, v: Vertex<F>): Point {
    Point(fl.narrow(v.x), fl.narrow(v.y), fl.narrow(v.z))
  }

  function TriangleCount<F>(m: Mesh<F>): nat {
    |m.indices| / 3
  }

  /** The quantized corners of all whole triangles, in order. */
  function Corners<F>(fl: Floats<F>, m: Mesh<F>): (r: seq<Point>)
    requires ValidMesh(m)
    ensures |r| == 3 * TriangleCount(m)
  {
    seq(3 * TriangleCount(m), i requires 0 <= i < 3 * TriangleCount(m) => Quantize(fl, m.positions[m.indices[i]]))
  }

  /** One facet: normal, three corners, two attribute bytes. */
  function FacetBytes<F>(fl: Floats<F>, a: Point, b: Point, c: Point): (r: seq<Byte>)
    ensures |r| == FACET_LEN
  {
    PointBytes(fl.normal(a, b, c)) + PointBytes(a) + PointBytes(b) + PointBytes(c) + [0, 0]
  }

  function FacetsBytes<F>(fl: Floats<F>, corners: seq<Point>): (r: seq<Byte>)
    ensures |r| == FACET_LEN * (|corners| / 3)
    decreases |corners|
  {
    if |corners| < 3 then [] else
      var rest := FacetsBytes(fl, corners[3..]);
      assert |corners[3..]| / 3 == |corners| / 3 - 1;
      FacetBytes(fl, corners[0], corners[1], corners[2]) + rest
  }

  /** "worldos geometry.export binary stl", padded with zeros. */
  function Header(): (r: seq<Byte>)
    ensures |r| == HEADER_LEN
    ensures r[0] == 119
  {
    [119, 111, 114, 108, 100, 111, 115, 32, 103, 101, 111, 109, 101, 116, 114, 121, 46, 101, 120, 112,
     111, 114, 116, 32, 98, 105, 110, 97, 114, 121, 32, 115, 116, 108] + seq(46, i => 0)
  }

  /** The whole file behind some header; a count beyond 32 bits wraps. */
  function FileWith<F>(head: seq<Byte>, fl: Floats<F>, corners: seq<Point>): seq<Byte> {
    head + Bytes4(|corners| / 3 % 0x1_0000_0000) + FacetsBytes(fl, corners)
  }

  function FileBytes<F>(fl: Floats<F>, corners: seq<Point>): seq<Byte> {
    FileWith(Header(), fl, corners)
  }

  lemma {:induction false} FacetsAppend<F>(fl: Floats<F>, corners: seq<Point>, a: Point, b: Point, c: Point)
    requires |corners| % 3 == 0
    ensures FacetsBytes(fl, corners + [a, b, c]) == FacetsBytes(fl, corners) + FacetBytes(fl, a, b, c)
    decreases |corners|
  {
    if corners == [] {
      assert [] + [a, b, c] == [a, b, c];
      assert [a, b, c][3..] == [];
      assert FacetsBytes(fl, [a, b, c][3..]) == [];
    } else {
      var all := corners + [a, b, c];
      assert all[0] == corners[0] && all[1] == corners[1] && all[2] == corners[2] && all[3..] == corners[3..] + [a, b, c];
      FacetsAppend(fl, corners[3..], a, b, c);
    }
  }

  lemma FacetsNext<F>(fl: Floats<F>, corners: seq<Point>, i: nat)
    requires 3 * i + 3 <= |corners|
    ensures FacetsBytes(fl, corners[..3 * (i + 1)])
         == FacetsBytes(fl, corners[..3 * i]) + FacetBytes(fl, corners[3 * i], corners[3 * i + 1], corners[3 * i + 2])
  {
    assert corners[..3 * (i + 1)] == corners[..3 * i] + [corners[3 * i], corners[3 * i + 1], corners[3 * i + 2]];
    FacetsAppend(fl, corners[..3 * i], corners[3 * i], corners[3 * i + 1], corners[3 * i + 2]);
  }

  method ToBinaryStl<F>(fl: Floats<F>, m: Mesh<F>) returns (out: seq<Byte>)
    requires ValidMesh(m)
    ensures out == FileBytes(fl, Corners(fl, m))
  {
    var facets := WriteFacets(fl, m);
    var count := TriangleCount(m);
    assert |Corners(fl, m)| / 3 == count;
    ghost var corners := Corners(fl, m);
    out := Header() + Bytes4(count % 0x1_0000_0000) + facets;
    assert out == FileWith(Header(), fl, corners);
  }

  method WriteFacets<F>(fl: Floats<F>, m: Mesh<F>) returns (facets: seq<Byte>)
    requires ValidMesh(m)
    ensures facets == FacetsBytes(fl, Corners(fl, m))
  {
    facets := [];
    ghost var corners := Corners(fl, m);
    var i := 0;
    while i < TriangleCount(m)
      invariant 0 <= i <= TriangleCount(m)
      invariant facets == FacetsBytes(fl, corners[..3 * i])
    {
      FacetsNext(fl, corners, i);
      var a := Quantize(fl, m.positions[m.indices[3 * i]]);
      var b := Quantize(fl, m.positions[m.indices[3 * i + 1]]);
      var c := Quantize(fl, m.positions[m.indices[3 * i + 2]]);
      facets := facets + FacetBytes(fl, a, b, c);
      i := i + 1;
    }
    assert corners[..3 * i] == corners;
  }

  // ----- reader ------------------------------------------------------------------------

  datatype StlError =
    | AsciiStl
    | TooSmall
    | TooMany(count: nat)
    | Truncated(count: nat)
    | NonFinite(facet: nat)
    | NoTriangles

  /** "facet" occurs somewhere. */
  predicate MentionsFacet(bytes: seq<Byte>) {
    exists i :: 0 <= i <= |bytes| && FacetAt(bytes[i..])
  }

  predicate FacetAt(bytes: seq<Byte>) {
    |bytes| >= 5 && bytes[..5] == [102, 97, 99, 101, 116]
  }

  predicate LooksLikeAscii(bytes: seq<Byte>) {
    |bytes| >= 5 && bytes[..5] == [115, 111, 108, 105, 100] && MentionsFacet(bytes)
  }

  /** The corner `v` of facet `i`. */
  function CornerAt(bytes: seq<Byte>, k: nat): Point
    requires 84 + k / 3 * 50 + 12 + k % 3 * 12 + 12 <= |bytes|
  {
    PointAt(bytes, 84 + k / 3 * 50 + 12 + k % 3 * 12)
  }

  /**
   `positions` and `indices` weld the corners: every corner finds its own coordinates, no two
   positions are equal, and positions are numbered in the order of first occurrence.
   */
  ghost predicate Welds(corners: seq<Point>, points: seq<Point>, indices: seq<nat>) {
    && |indices| == |corners|
    && (forall k :: 0 <= k < |indices| ==> indices[k] < |points| && points[indices[k]] == corners[k])
    && Distinct(points)
    && forall p :: 0 <= p < |points| ==> FirstUse(indices, p)
  }

  /** `p` is used, and only smaller numbers are used before its first use. */
  ghost predicate FirstUse(indices: seq<nat>, p: nat) {
    exists k :: 0 <= k < |indices| && indices[k] == p && forall j :: 0 <= j < k ==> indices[j] < p
  }

  /** Two weldings of the same corners are the same: the file determines vertices and indices. */
  lemma WeldUnique(corners: seq<Point>, p: seq<Point>, i: seq<nat>, q: seq<Point>, j: seq<nat>)
    requires Welds(corners, p, i) && Welds(corners, q, j)
    ensures i == j && p == q
  {
    WeldPrefix(corners, p, i, q, j, |corners|);
    assert i[..|corners|] == i && j[..|corners|] == j;
    NoMorePoints(corners, p, q, i);
    NoMorePoints(corners, q, p, i);
    forall x | 0 <= x < |p|
      ensures p[x] == q[x]
    {
      assert FirstUse(i, x);
    }
  }

  /** Every position is used, so there are no more of them than the other numbering has. */
  lemma NoMorePoints(corners: seq<Point>, p: seq<Point>, q: seq<Point>, i: seq<nat>)
    requires Welds(corners, p, i) && Welds(corners, q, i)
    ensures |p| <= |q|
  {
    if p != [] {
      assert FirstUse(i, |p| - 1);
    }
  }

  lemma {:induction false} WeldPrefix(corners: seq<Point>, p: seq<Point>, i: seq<nat>, q: seq<Point>, j: seq<nat>, n: nat)
    requires Welds(corners, p, i) && Welds(corners, q, j) && n <= |corners|
    ensures i[..n] == j[..n]
    decreases n
  {
    if n > 0 {
      WeldPrefix(corners, p, i, q, j, n - 1);
      var k := n - 1;
      assert forall m :: 0 <= m < k ==> i[..k][m] == i[m] && j[..k][m] == j[m];
      SameNumber(corners, p, i, q, j, k);
      assert i[..n] == i[..k] + [i[k]] && j[..n] == j[..k] + [j[k]];
    }
  }

  lemma SameNumber(corners: seq<Point>, p: seq<Point>, i: seq<nat>, q: seq<Point>, j: seq<nat>, k: nat)
    requires Welds(corners, p, i) && Welds(corners, q, j) && k < |corners|
    requires forall m :: 0 <= m < k ==> i[m] == j[m]
    ensures i[k] == j[k]
  {
    if i[k] < j[k] {
      NotSmaller(corners, p, i, q, j, k);
    } else if j[k] < i[k] {
      NotSmaller(corners, q, j, p, i, k);
    }
  }

  /** A number smaller than the one in use at `k` was in use before. */
  lemma UsedBefore(indices: seq<nat>, p: nat, k: nat) returns (h: nat)
    requires k < |indices| && p < indices[k] && FirstUse(indices, p)
    ensures h < k && indices[h] == p
  {
    h :| 0 <= h < |indices| && indices[h] == p && forall j :: 0 <= j < h ==> indices[j] < p;
  }

  lemma NotSmaller(corners: seq<Point>, p: seq<Point>, i: seq<nat>, q: seq<Point>, j: seq<nat>, k: nat)
    requires Welds(corners, p, i) && Welds(corners, q, j) && k < |corners|
    requires forall m :: 0 <= m < k ==> i[m] == j[m]
    ensures i[k] >= j[k]
  {
    if i[k] < j[k] {
      var h := UsedBefore(j, i[k], k);
      SameCornerSameNumber(corners, p, i, q, j, h, k);
    }
  }

  /** The first welding joins `h` and `k`, so their corners are equal and the second joins them too. */
  lemma SameCornerSameNumber(corners: seq<Point>, p: seq<Point>, i: seq<nat>, q: seq<Point>, j: seq<nat>, h: nat, k: nat)
    requires Welds(corners, p, i) && Welds(corners, q, j) && h < k < |corners| && i[h] == i[k]
    ensures j[h] == j[k]
  {
    assert corners[h] == p[i[h]] == corners[k];
    assert q[j[h]] == q[j[k]];
  }

  predicate Holds(bytes: seq<Byte>, count: nat) {
    84 + count * 50 <= |bytes|
  }

  function FileCorners(bytes: seq<Byte>, count: nat): seq<Point>
    requires Holds(bytes, count)
  {
    seq(3 * count, k requires 0 <= k < 3 * count => CornerAt(bytes, k))
  }

  predicate AllFinite(corners: seq<Point>) {
    forall k :: 0 <= k < |corners| ==> FinitePoint(corners[k])
  }

  function Widen<F>(fl: Floats<F>, p: Point): Vertex<F> {
    Vertex(fl.widen(p.x), fl.widen(p.y), fl.widen(p.z))
  }

  ghost predicate Widened<F>(fl: Floats<F>, points: seq<Point>, positions: seq<Vertex<F>>) {
    |positions| == |points| && forall p :: 0 <= p < |points| ==> positions[p] == Widen(fl, points[p])
  }

  /** The hash map sends every welded point to its number. */
  ghost predicate Indexes(welded: map<Point, nat>, points: seq<Point>) {
    && (forall c :: c in welded ==> welded[c] < |points| && points[welded[c]] == c)
    && forall p :: 0 <= p < |points| ==> points[p] in welded && welded[points[p]] == p
  }

  lemma WeldOld(corners: seq<Point>, points: seq<Point>, indices: seq<nat>, c: Point, p: nat)
    requires Welds(corners, points, indices) && p < |points| && points[p] == c
    ensures Welds(corners + [c], points, indices + [p])
  {
    forall q | 0 <= q < |points|
      ensures FirstUse(indices + [p], q)
    {
      assert FirstUse(indices, q);
      var k :| 0 <= k < |indices| && indices[k] == q && forall j :: 0 <= j < k ==> indices[j] < q;
      assert (indices + [p])[k] == q;
    }
  }

  lemma WeldNew(corners: seq<Point>, points: seq<Point>, indices: seq<nat>, c: Point)
    requires Welds(corners, points, indices) && c !in points
    ensures Welds(corners + [c], points + [c], indices + [|points|])
  {
    var more := indices + [|points|];
    forall q | 0 <= q < |points| + 1
      ensures FirstUse(more, q)
    {
      if q < |points| {
        assert FirstUse(indices, q);
        var k :| 0 <= k < |indices| && indices[k] == q && forall j :: 0 <= j < k ==> indices[j] < q;
        assert more[k] == q;
      } else {
        assert more[|indices|] == q;
      }
    }
  }

  lemma IndexNew(welded: map<Point, nat>, points: seq<Point>, c: Point)
    requires Indexes(welded, points) && c !in welded
    ensures c !in points && Indexes(welded[c := |points|], points + [c])
  {
  }

  /** One corner: look it up, number it if it is new. */
  method WeldCorner<F>(fl: Floats<F>, welded: map<Point, nat>, positions: seq<Vertex<F>>, indices: seq<nat>, c: Point,
                       ghost corners: seq<Point>, ghost points: seq<Point>)
      returns (welded': map<Point, nat>, positions': seq<Vertex<F>>, indices': seq<nat>, ghost points': seq<Point>)
    requires Welds(corners, points, indices) && Indexes(welded, points) && Widened(fl, points, positions)
    ensures Welds(corners + [c], points', indices') && Indexes(welded', points') && Widened(fl, points', positions')
  {
    welded', positions', points' := welded, positions, points;
    if c !in welded {
      IndexNew(welded, points, c);
      WeldNew(corners, points, indices, c);
      positions', points' := positions + [Widen(fl, c)], points + [c];
      welded' := welded[c := |positions|];
    } else {
      WeldOld(corners, points, indices, c, welded[c]);
    }
    indices' := indices + [welded'[c]];
  }

  lemma CornerOffset(bytes: seq<Byte>, count: nat, i: nat, v: nat)
    requires Holds(bytes, count) && i < count && v < 3
    ensures FileCorners(bytes, count)[3 * i + v] == PointAt(bytes, 84 + i * 50 + 12 + v * 12)
  {
    assert (3 * i + v) / 3 == i && (3 * i + v) % 3 == v;
  }

  lemma PrefixNext(corners: seq<Point>, n: nat)
    requires n < |corners|
    ensures corners[..n + 1] == corners[..n] + [corners[n]]
  {
  }

  ghost predicate Welding<F>(fl: Floats<F>, corners: seq<Point>, points: seq<Point>, welded: map<Point, nat>, positions: seq<Vertex<F>>, indices: seq<nat>) {
    && Welds(corners, points, indices) && Indexes(welded, points) && Widened(fl, points, positions)
    && AllFinite(corners)
  }

  /** Read `count` facets, welding corners as they come. */
  method Facets<F>(fl: Floats<F>, bytes: seq<Byte>, count: nat) returns (r: Result<Mesh<F>, StlError>, ghost points: seq<Point>)
    requires Holds(bytes, count)
    ensures r.Ok? <==> AllFinite(FileCorners(bytes, count))
    ensures r.Ok? ==> Welds(FileCorners(bytes, count), points, r.value.indices) && Widened(fl, points, r.value.positions)
    ensures r.Err? ==> r.error.NonFinite?
  {
    var positions: seq<Vertex<F>>, indices: seq<nat> := [], [];
    var welded: map<Point, nat> := map[];
    points := [];
    ghost var corners := FileCorners(bytes, count);
    for i := 0 to count
      invariant Welding(fl, corners[..3 * i], points, welded, positions, indices)
    {
      for v := 0 to 3
        invariant Welding(fl, corners[..3 * i + v], points, welded, positions, indices)
      {
        CornerOffset(bytes, count, i, v);
        var p := PointAt(bytes, 84 + i * 50 + 12 + v * 12);
        assert p == corners[3 * i + v];
        if !FinitePoint(p) {
          return Err(NonFinite(i)), points;
        }
        PrefixNext(corners, 3 * i + v);
        welded, positions, indices, points := WeldCorner(fl, welded, positions, indices, p, corners[..3 * i + v], points);
      }
    }
    assert corners[..3 * count] == corners;
    return Ok(Mesh(positions, indices)), points;
  }

  /** The checks in front of the facet loop; the cap binds exact-length files too. */
  function StlVerdict(bytes: seq<Byte>): Result<nat, StlError> {
    if |bytes| < 84 then Err(if LooksLikeAscii(bytes) then AsciiStl else TooSmall)
    else
      var count := WordAt(bytes, 80);
      if |bytes| != 84 + count * 50 && LooksLikeAscii(bytes) then Err(AsciiStl)
      else if count > MAX_IMPORT_TRIANGLES then Err(TooMany(count))
      else if |bytes| < 84 + count * 50 then Err(Truncated(count))
      else Ok(count)
  }

  /** `parse` for STL: an indexed mesh of 1 to 100000 triangles, or the reason why not. */
  method ParseStl<F>(fl: Floats<F>, bytes: seq<Byte>) returns (r: Result<Mesh<F>, StlError>, ghost points: seq<Point>)
    ensures StlVerdict(bytes).Err? ==> r == Err(StlVerdict(bytes).error)
    ensures StlVerdict(bytes).Ok? ==>
      var count := StlVerdict(bytes).value;
      && (r.Ok? <==> count > 0 && AllFinite(FileCorners(bytes, count)))
      && (r.Ok? ==> Welds(FileCorners(bytes, count), points, r.value.indices) && Widened(fl, points, r.value.positions))
      && (count == 0 ==> r == Err(NoTriangles))
  {
    points := [];
    var verdict := StlVerdict(bytes);
    if verdict.Err? {
      return Err(verdict.error), points;
    }
    r, points := Facets(fl, bytes, verdict.value);
    if r.Ok? && TriangleCount(r.value) == 0 {
      return Err(NoTriangles), points;
    }
  }

  // ----- writing, reading, writing again --------------------------------------------------

  lemma {:induction false} FacetSlice<F>(fl: Floats<F>, corners: seq<Point>, i: nat)
    requires 3 * i + 3 <= |corners|
    ensures 50 * i + 50 <= |FacetsBytes(fl, corners)|
    ensures FacetsBytes(fl, corners)[50 * i..50 * i + 50]
         == FacetBytes(fl, corners[3 * i], corners[3 * i + 1], corners[3 * i + 2])
    decreases i
  {
    var first := FacetBytes(fl, corners[0], corners[1], corners[2]);
    var rest := FacetsBytes(fl, corners[3..]);
    if i == 0 {
      SliceFront(first, rest);
    } else {
      var later := corners[3..];
      assert later[3 * (i - 1)] == corners[3 * i] && later[3 * (i - 1) + 1] == corners[3 * i + 1] && later[3 * (i - 1) + 2] == corners[3 * i + 2];
      FacetSlice(fl, later, i - 1);
      SliceBehind(first, rest, i);
    }
  }

  lemma SliceFront(first: seq<Byte>, rest: seq<Byte>)
    requires |first| == 50
    ensures (first + rest)[0..50] == first
  {
  }

  lemma SliceBehind(first: seq<Byte>, rest: seq<Byte>, i: nat)
    requires |first| == 50 && i > 0 && 50 * i <= |rest|
    ensures (first + rest)[50 * i..50 * i + 50] == rest[50 * (i - 1)..50 * (i - 1) + 50]
  {
  }

  /** The three corners of a facet stand where the reader looks for them. */
  lemma FacetCorners<F>(fl: Floats<F>, a: Point, b: Point, c: Point)
    ensures var s := FacetBytes(fl, a, b, c); PointAt(s, 12) == a && PointAt(s, 24) == b && PointAt(s, 36) == c
  {
    var n := PointBytes(fl.normal(a, b, c));
    var s := FacetBytes(fl, a, b, c);
    PointReads(n, a, PointBytes(b) + PointBytes(c) + [0, 0]);
    assert s == n + PointBytes(a) + (PointBytes(b) + PointBytes(c) + [0, 0]);
    PointReads(n + PointBytes(a), b, PointBytes(c) + [0, 0]);
    assert s == n + PointBytes(a) + PointBytes(b) + (PointBytes(c) + [0, 0]);
    PointReads(n + PointBytes(a) + PointBytes(b), c, [0, 0]);
  }

  lemma SliceOfSlice(s: seq<Byte>, from: nat, len: nat, off: nat, n: nat)
    requires from + len <= |s| && off + n <= len
    ensures s[from..from + len][off..off + n] == s[from + off..from + off + n]
  {
    var t := s[from..from + len];
    assert |t[off..off + n]| == |s[from + off..from + off + n]|;
    var x, y := t[off..off + n], s[from + off..from + off + n];
    forall i | 0 <= i < |x|
      ensures x[i] == y[i]
    {
      assert t[off + i] == s[from + (off + i)];
    }
  }

  lemma PointInSlice(bytes: seq<Byte>, from: nat, len: nat, off: nat)
    requires from + len <= |bytes| && off + 12 <= len
    ensures PointAt(bytes, from + off) == PointAt(bytes[from..from + len], off)
  {
    SliceOfSlice(bytes, from, len, off, 4);
    SliceOfSlice(bytes, from, len, off + 4, 4);
    SliceOfSlice(bytes, from, len, off + 8, 4);
  }

  /** Facet `i` of a file is facet `i` of its facets part. */
  lemma FacetInFile<F>(head: seq<Byte>, fl: Floats<F>, corners: seq<Point>, i: nat)
    requires |head| == HEADER_LEN && 3 * i + 3 <= |corners|
    ensures 84 + 50 * i + 50 <= |FileWith(head, fl, corners)|
    ensures FileWith(head, fl, corners)[84 + 50 * i..84 + 50 * i + 50]
         == FacetBytes(fl, corners[3 * i], corners[3 * i + 1], corners[3 * i + 2])
  {
    FacetSlice(fl, corners, i);
    var body := FacetsBytes(fl, corners);
    var front := head + Bytes4(|corners| / 3 % 0x1_0000_0000);
    assert (front + body)[84 + 50 * i..84 + 50 * i + 50] == body[50 * i..50 * i + 50];
  }

  /** Where facet `i` of a buffer is the facet `a`, `b`, `c`, its corners read back as those. */
  lemma CornersOfFacet<F>(bytes: seq<Byte>, fl: Floats<F>, a: Point, b: Point, c: Point, i: nat)
    requires 84 + 50 * i + 50 <= |bytes| && bytes[84 + 50 * i..84 + 50 * i + 50] == FacetBytes(fl, a, b, c)
    ensures CornerAt(bytes, 3 * i) == a && CornerAt(bytes, 3 * i + 1) == b && CornerAt(bytes, 3 * i + 2) == c
  {
    FacetCorners(fl, a, b, c);
    CornersInFacet(bytes, FacetBytes(fl, a, b, c), i);
  }

  lemma Thirds(i: nat)
    ensures (3 * i) / 3 == (3 * i + 1) / 3 == (3 * i + 2) / 3 == i
    ensures (3 * i) % 3 == 0 && (3 * i + 1) % 3 == 1 && (3 * i + 2) % 3 == 2
  {
  }

  lemma CornersInFacet(bytes: seq<Byte>, facet: seq<Byte>, i: nat)
    requires |facet| == 50 && 84 + 50 * i + 50 <= |bytes| && bytes[84 + 50 * i..84 + 50 * i + 50] == facet
    ensures CornerAt(bytes, 3 * i) == PointAt(facet, 12)
    ensures CornerAt(bytes, 3 * i + 1) == PointAt(facet, 24)
    ensures CornerAt(bytes, 3 * i + 2) == PointAt(facet, 36)
  {
    Thirds(i);
    PointInSlice(bytes, 84 + 50 * i, 50, 12);
    PointInSlice(bytes, 84 + 50 * i, 50, 24);
    PointInSlice(bytes, 84 + 50 * i, 50, 36);
  }

  lemma CornerReads<F>(bytes: seq<Byte>, head: seq<Byte>, fl: Floats<F>, corners: seq<Point>, k: nat)
    requires |head| == HEADER_LEN && |corners| % 3 == 0 && k < |corners| && bytes == FileWith(head, fl, corners)
    ensures 84 + 50 * (k / 3) + 50 <= |bytes| && CornerAt(bytes, k) == corners[k]
  {
    var i := k / 3;
    FacetInFile(head, fl, corners, i);
    CornersOfFacet(bytes, fl, corners[3 * i], corners[3 * i + 1], corners[3 * i + 2], i);
    assert k == 3 * i || k == 3 * i + 1 || k == 3 * i + 2;
  }

  lemma FileLength<F>(head: seq<Byte>, fl: Floats<F>, corners: seq<Point>)
    requires |head| == HEADER_LEN
    ensures |FileWith(head, fl, corners)| == 84 + |corners| / 3 * 50
  {
  }

  /** The reader sees in a written file exactly the corners that were written. */
  lemma WrittenCorners<F>(bytes: seq<Byte>, head: seq<Byte>, fl: Floats<F>, corners: seq<Point>)
    requires |head| == HEADER_LEN && |corners| % 3 == 0 && bytes == FileWith(head, fl, corners)
    ensures |bytes| == 84 + |corners| / 3 * 50
    ensures FileCorners(bytes, |corners| / 3) == corners
  {
    FileLength(head, fl, corners);
    forall k | 0 <= k < |corners|
      ensures FileCorners(bytes, |corners| / 3)[k] == corners[k]
    {
      CornerReads(bytes, head, fl, corners, k);
    }
  }

  lemma CountReads(head: seq<Byte>, n: nat, body: seq<Byte>)
    requires |head| == HEADER_LEN && n < 0x1_0000_0000
    ensures WordAt(head + Bytes4(n) + body, 80) == n
  {
    assert (head + Bytes4(n) + body)[80..84] == Bytes4(n);
    WordBytes(n);
  }

  /** A file of the declared length is taken at its word, whatever its header says. */
  lemma ExactFile(bytes: seq<Byte>, count: nat)
    requires |bytes| == 84 + count * 50 && WordAt(bytes, 80) == count && count <= MAX_IMPORT_TRIANGLES
    ensures StlVerdict(bytes) == Ok(count)
  {
  }

  lemma WrittenCount<F>(bytes: seq<Byte>, head: seq<Byte>, fl: Floats<F>, corners: seq<Point>)
    requires |head| == HEADER_LEN && |corners| / 3 <= MAX_IMPORT_TRIANGLES && bytes == FileWith(head, fl, corners)
    ensures StlVerdict(bytes) == Ok(|corners| / 3)
  {
    FileLength(head, fl, corners);
    FileCountReads(head, fl, corners, |corners| / 3);
    ExactFile(bytes, |corners| / 3);
  }

  lemma FileCountReads<F>(head: seq<Byte>, fl: Floats<F>, corners: seq<Point>, count: nat)
    requires |head| == HEADER_LEN && count == |corners| / 3 <= MAX_IMPORT_TRIANGLES
    ensures |FileWith(head, fl, corners)| >= 84 && WordAt(FileWith(head, fl, corners), 80) == count
  {
    assert count % 0x1_0000_0000 == count;
    CountReads(head, count, FacetsBytes(fl, corners));
  }

  /** A welded mesh has the corners it was welded from. */
  lemma WeldedCorners<F(!new)>(fl: Floats<F>, corners: seq<Point>, points: seq<Point>, m: Mesh<F>)
    requires Exact(fl) && |corners| % 3 == 0 && AllFinite(corners)
    requires Welds(corners, points, m.indices) && Widened(fl, points, m.positions)
    ensures ValidMesh(m) && Corners(fl, m) == corners
  {
    forall k | 0 <= k < |corners|
      ensures Quantize(fl, m.positions[m.indices[k]]) == corners[k]
    {
      assert points[m.indices[k]] == corners[k];
      assert FinitePoint(corners[k]);
    }
  }

  /**
   Write, read, write: the second file is the first one, byte for byte. The mesh in between
   has pairwise distinct vertices in the order of first occurrence and the same quantized
   corners in the same order.
   */
  method WriteReadWrite<F(!new)>(fl: Floats<F>, m: Mesh<F>)
      returns (first: seq<Byte>, parsed: Result<Mesh<F>, StlError>, second: seq<Byte>, ghost points: seq<Point>)
    requires Exact(fl) && ValidMesh(m) && 1 <= TriangleCount(m) <= MAX_IMPORT_TRIANGLES
    requires AllFinite(Corners(fl, m))
    ensures first == FileBytes(fl, Corners(fl, m))
    ensures parsed.Ok? && ValidMesh(parsed.value) && Corners(fl, parsed.value) == Corners(fl, m)
    ensures Welds(Corners(fl, m), points, parsed.value.indices) && Widened(fl, points, parsed.value.positions)
    ensures second == first
  {
    ghost var corners := Corners(fl, m);
    first := ToBinaryStl(fl, m);
    WrittenCorners(first, Header(), fl, corners);
    WrittenCount(first, Header(), fl, corners);
    parsed, points := ParseStl(fl, first);
    assert parsed.Ok? && FileCorners(first, |corners| / 3) == corners;
    WeldedCorners(fl, corners, points, parsed.value);
    second := ToBinaryStl(fl, parsed.value);
  }
}
