/** Binary STL byte by byte: where everything stands in a written file, and which files are read. */
module StlLayout {
  import opened Prelude
  import opened Stl

  /** Four bytes, the lowest first, make the number. */
  predicate WordStands(bytes: seq<Byte>, off: nat, b: int) {
    && off + 4 <= |bytes|
    && bytes[off] as int + 0x100 * (bytes[off + 1] as int) + 0x1_0000 * (bytes[off + 2] as int) + 0x100_0000 * (bytes[off + 3] as int) == b
  }

  predicate PointStands(bytes: seq<Byte>, off: nat, p: Point) {
    WordStands(bytes, off, p.x) && WordStands(bytes, off + 4, p.y) && WordStands(bytes, off + 8, p.z)
  }

  /** The characters of `text` stand there. */
  predicate TextStands(bytes: seq<Byte>, off: nat, text: string) {
    off + |text| <= |bytes| && forall i :: 0 <= i < |text| ==> bytes[off + i] as int == text[i] as int
  }

  /** Corner `j` of triangle `t`, in single precision. */
  function WrittenCorner<F>(fl: Floats<F>, m: Mesh<F>, t: nat, j: nat): Point
    requires ValidMesh(m) && j < 3 && 3 * t + 3 <= |m.indices|
  {
    var v := m.positions[m.indices[3 * t + j]];
    Point(fl.narrow(v.x), fl.narrow(v.y), fl.narrow(v.z))
  }

  /** Fifty bytes for triangle `t`: the normal of its corners as they are stored, the corners, two zeros. */
  ghost predicate FacetStands<F>(fl: Floats<F>, m: Mesh<F>, bytes: seq<Byte>, t: nat)
    requires ValidMesh(m) && 3 * t + 3 <= |m.indices|
  {
    var at := 84 + 50 * t;
    var a, b, c := WrittenCorner(fl, m, t, 0), WrittenCorner(fl, m, t, 1), WrittenCorner(fl, m, t, 2);
    && at + 50 <= |bytes|
    && PointStands(bytes, at, fl.normal(a, b, c))
    && PointStands(bytes, at + 12, a) && PointStands(bytes, at + 24, b) && PointStands(bytes, at + 36, c)
    && bytes[at + 48] == bytes[at + 49] == 0
  }

  lemma WordReadsStands(bytes: seq<Byte>, off: nat)
    requires off + 4 <= |bytes|
    ensures WordStands(bytes, off, WordAt(bytes, off))
  {
    var s := bytes[off..off + 4];
    assert s[0] == bytes[off] && s[1] == bytes[off + 1] && s[2] == bytes[off + 2] && s[3] == bytes[off + 3];
  }

  lemma PointReadsStands(bytes: seq<Byte>, off: nat)
    requires off + 12 <= |bytes|
    ensures PointStands(bytes, off, PointAt(bytes, off))
  {
    WordReadsStands(bytes, off);
    WordReadsStands(bytes, off + 4);
    WordReadsStands(bytes, off + 8);
  }

  lemma FacetReads<F>(fl: Floats<F>, a: Point, b: Point, c: Point)
    ensures var s := FacetBytes(fl, a, b, c);
            && PointAt(s, 0) == fl.normal(a, b, c) && PointAt(s, 12) == a && PointAt(s, 24) == b && PointAt(s, 36) == c
            && s[48] == s[49] == 0
  {
    hide PointAt, PointBytes;
    var s, n := FacetBytes(fl, a, b, c), fl.normal(a, b, c);
    FacetCorners(fl, a, b, c);
    var rest := PointBytes(a) + PointBytes(b) + PointBytes(c) + [0, 0];
    PointReads([], n, rest);
    assert s == [] + PointBytes(n) + rest;
  }

  lemma FacetIsWritten<F>(fl: Floats<F>, m: Mesh<F>, bytes: seq<Byte>, t: nat)
    requires ValidMesh(m) && 3 * t + 3 <= |m.indices| && bytes == FileBytes(fl, Corners(fl, m))
    ensures FacetStands(fl, m, bytes, t)
  {
    var at, corners := 84 + 50 * t, Corners(fl, m);
    var a, b, c := WrittenCorner(fl, m, t, 0), WrittenCorner(fl, m, t, 1), WrittenCorner(fl, m, t, 2);
    assert corners[3 * t] == a && corners[3 * t + 1] == b && corners[3 * t + 2] == c;
    FacetInFile(Header(), fl, corners, t);
    FacetReads(fl, a, b, c);
    FacetLands(bytes, FacetBytes(fl, a, b, c), at);
  }

  lemma PointLands(bytes: seq<Byte>, facet: seq<Byte>, at: nat, off: nat)
    requires |facet| == 50 && at + 50 <= |bytes| && bytes[at..at + 50] == facet && off + 12 <= 50
    ensures PointStands(bytes, at + off, PointAt(facet, off))
  {
    PointInSlice(bytes, at, 50, off);
    PointReadsStands(bytes, at + off);
  }

  lemma FacetLands(bytes: seq<Byte>, facet: seq<Byte>, at: nat)
    requires |facet| == 50 && at + 50 <= |bytes| && bytes[at..at + 50] == facet
    ensures PointStands(bytes, at, PointAt(facet, 0)) && PointStands(bytes, at + 12, PointAt(facet, 12))
    ensures PointStands(bytes, at + 24, PointAt(facet, 24)) && PointStands(bytes, at + 36, PointAt(facet, 36))
    ensures bytes[at + 48] == facet[48] && bytes[at + 49] == facet[49]
  {
    hide PointStands, PointAt;
    PointLands(bytes, facet, at, 0);
    PointLands(bytes, facet, at, 12);
    PointLands(bytes, facet, at, 24);
    PointLands(bytes, facet, at, 36);
    assert bytes[at..at + 50][48] == bytes[at + 48] && bytes[at..at + 50][49] == bytes[at + 49];
  }

  /** The header: what wrote it, and zeros. */
  predicate HeadStands(bytes: seq<Byte>) {
    TextStands(bytes, 0, "worldos geometry.export binary stl") && 80 <= |bytes| && forall i :: 34 <= i < 80 ==> bytes[i] == 0
  }

  lemma HeadIsWritten(bytes: seq<Byte>)
    requires 80 <= |bytes| && bytes[..80] == Header()
    ensures HeadStands(bytes)
  {
    var head := Header();
    assert forall i :: 0 <= i < 80 ==> bytes[i] == head[i];
  }

  lemma CountIsWritten(head: seq<Byte>, n: Bits, body: seq<Byte>)
    requires |head| == 80
    ensures WordStands(head + Bytes4(n) + body, 80, n)
  {
    var bytes := head + Bytes4(n) + body;
    assert bytes[80..84] == Bytes4(n);
    WordBytes(n);
    WordReadsStands(bytes, 80);
  }

  /** The file from its first byte to its last. */
  lemma WrittenFile<F>(fl: Floats<F>, m: Mesh<F>, bytes: seq<Byte>)
    requires ValidMesh(m) && bytes == FileBytes(fl, Corners(fl, m))
    ensures |bytes| == 84 + 50 * (|m.indices| / 3) && HeadStands(bytes)
    ensures WordStands(bytes, 80, |m.indices| / 3 % 0x1_0000_0000)
    ensures forall t :: 0 <= t < |m.indices| / 3 ==> FacetStands(fl, m, bytes, t)
  {
    hide Header, HeadStands, WordStands, FacetStands, FacetsBytes;
    var corners := Corners(fl, m);
    FileLength(Header(), fl, corners);
    assert bytes[..80] == Header();
    HeadIsWritten(bytes);
    CountIsWritten(Header(), |m.indices| / 3 % 0x1_0000_0000, FacetsBytes(fl, corners));
    forall t | 0 <= t < |m.indices| / 3
      ensures FacetStands(fl, m, bytes, t)
    {
      FacetIsWritten(fl, m, bytes, t);
    }
  }

  // ----- what is read -------------------------------------------------------------------------

  /** It begins with the word "solid" and has the word "facet" somewhere. */
  ghost predicate Textual(bytes: seq<Byte>) {
    TextStands(bytes, 0, "solid") && exists i: nat :: TextStands(bytes, i, "facet")
  }

  lemma FiveStand(bytes: seq<Byte>, off: nat, text: string)
    requires TextStands(bytes, off, text) && |text| == 5
    ensures var s := bytes[off..];
            && |s| >= 5 && s[0] as int == text[0] as int && s[1] as int == text[1] as int && s[2] as int == text[2] as int
            && s[3] as int == text[3] as int && s[4] as int == text[4] as int
  {
    assert bytes[off + 0] as int == text[0] as int && bytes[off + 1] as int == text[1] as int && bytes[off + 2] as int == text[2] as int;
    assert bytes[off + 3] as int == text[3] as int && bytes[off + 4] as int == text[4] as int;
  }

  lemma TextualLooks(bytes: seq<Byte>)
    ensures LooksLikeAscii(bytes) <==> Textual(bytes)
  {
    if LooksLikeAscii(bytes) {
      assert forall i :: 0 <= i < 5 ==> bytes[i] == bytes[..5][i];
      var i :| 0 <= i <= |bytes| && FacetAt(bytes[i..]);
      assert forall j :: 0 <= j < 5 ==> bytes[i + j] == bytes[i..][..5][j];
      assert TextStands(bytes, i, "facet");
    }
    if Textual(bytes) {
      FiveStand(bytes, 0, "solid");
      assert bytes[0..] == bytes && bytes[..5] == [115, 111, 108, 105, 100];
      var i: nat :| TextStands(bytes, i, "facet");
      FiveStand(bytes, i, "facet");
      assert bytes[i..][..5] == [102, 97, 99, 101, 116];
      assert FacetAt(bytes[i..]);
    }
  }

  /**
   Which files get to the facet loop, and what is said of the others. A file of exactly the
   declared length is binary whatever it begins with; one that is longer is read as far as
   declared, unless it looks like text.
   */
  lemma VerdictMeans(bytes: seq<Byte>, count: nat)
    requires |bytes| >= 84 ==> WordStands(bytes, 80, count)
    ensures StlVerdict(bytes) == Ok(count) <==> 84 + 50 * count <= |bytes| && count <= 100000 && (|bytes| == 84 + 50 * count || !Textual(bytes))
    ensures StlVerdict(bytes) == Err(AsciiStl) <==> Textual(bytes) && |bytes| != 84 + 50 * count
    ensures StlVerdict(bytes) == Err(TooSmall) <==> !Textual(bytes) && |bytes| < 84
    ensures StlVerdict(bytes) == Err(TooMany(count)) <==>
      |bytes| >= 84 && count > 100000 && (|bytes| == 84 + 50 * count || !Textual(bytes))
    ensures StlVerdict(bytes) == Err(Truncated(count)) <==> 84 <= |bytes| < 84 + 50 * count && count <= 100000 && !Textual(bytes)
  {
    TextualLooks(bytes);
    if |bytes| >= 84 {
      WordReadsStands(bytes, 80);
    }
  }

  /** Sign aside, the finite single-precision numbers are the patterns below that of infinity. */
  lemma FiniteMeans(b: Bits)
    ensures Finite(b) <==> b % 0x8000_0000 < 0x7F80_0000
  {
  }
}
