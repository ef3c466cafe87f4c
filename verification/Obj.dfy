/**
 Wavefront OBJ: the writer, the line-by-line reader with index resolution and fan
 triangulation, and the round trip between them.
 */
module Obj {
  import opened Prelude
  import opened Text
  import opened ScannerFacts
  import MV = MeshVolume
  import Stl

  const MAX_I64: int := 0x7fff_ffff_ffff_ffff

  /** Reading and writing one finite number as text. */
  datatype FloatText<!F> = FloatText(format: F -> string, read: string -> Option<F>)

  /** Nonempty and without white space. */
  predicate Token(t: string) {
    t != "" && forall i :: 0 <= i < |t| ==> !IsSpace(t[i])
  }

  /** Shortest round-trip text: what was written reads back. */
  ghost predicate Faithful<F(!new)>(ft: FloatText<F>) {
    forall x: F :: Token(ft.format(x)) && ft.read(ft.format(x)) == Some(x)
  }

  datatype ObjProblem =
    | BadVertex
    | BadIndex(token: string)
    | ZeroIndex
    | OutOfRange(index: int)
    | ShortFace
    | TooManyTriangles
    | NoTriangles

  /** A problem and the line it is on, counted from 1 (0 where none is named). */
  datatype ObjError = ObjError(line: nat, problem: ObjProblem)

  /** The triangle cap is reported without a line. */
  function At(number: nat, problem: ObjProblem): ObjError {
    ObjError(if problem == TooManyTriangles then 0 else number, problem)
  }

  type MeshOf<F> = Stl.Mesh<F>

  // ----- whole numbers ------------------------------------------------------------------

  predicate IsDigit(c: char) {
    '0' <= c <= '9'
  }

  function Digit(d: nat): (c: char)
    requires d < 10
    ensures IsDigit(c) && c as int - '0' as int == d
  {
    ('0' as int + d) as char
  }

  function Decimal(n: nat): (s: string)
    ensures s != "" && forall i :: 0 <= i < |s| ==> IsDigit(s[i])
  {
    if n < 10 then [Digit(n)] else Decimal(n / 10) + [Digit(n % 10)]
  }

  function DigitsValue(s: string): nat
    requires forall i :: 0 <= i < |s| ==> IsDigit(s[i])
  {
    if s == "" then 0 else
      assert IsDigit(s[|s| - 1]);
      var last: nat := s[|s| - 1] as int - '0' as int;
      10 * DigitsValue(s[..|s| - 1]) + last
  }

  /** `parse::<i64>`: an optional sign and at least one digit, within 64 bits. */
  function ParseInt(s: string): Option<int> {
    var negative := s != "" && s[0] == '-';
    var digits := if s != "" && (s[0] == '-' || s[0] == '+') then s[1..] else s;
    if digits == "" || exists i :: 0 <= i < |digits| && !IsDigit(digits[i]) then None
    else
      var size: int := DigitsValue(digits);
      var v: int := if negative then 0 - size else size;
      if -MAX_I64 - 1 <= v <= MAX_I64 then Some(v) else None
  }

  lemma {:induction false} DecimalReads(n: nat)
    ensures DigitsValue(Decimal(n)) == n
    decreases n
  {
    var s := Decimal(n);
    if n >= 10 {
      DecimalReads(n / 10);
      assert s[..|s| - 1] == Decimal(n / 10);
    } else {
      assert s[..0] == "";
    }
  }

  lemma DecimalParses(n: nat)
    requires n <= MAX_I64
    ensures ParseInt(Decimal(n)) == Some(n)
  {
    var s := Decimal(n);
    DecimalReads(n);
    assert IsDigit(s[0]);
  }

  // ----- lines and tokens ------------------------------------------------------------------

  /** `lines()`: a final line break ends the last line and begins no other. */
  function Lines(text: string): seq<string> {
    var parts := Split(text, '\n');
    if parts[|parts| - 1] == "" then parts[..|parts| - 1] else parts
  }

  function TokenEnd(s: string): (n: nat)
    ensures n <= |s|
  {
    if s == "" || IsSpace(s[0]) then 0 else 1 + TokenEnd(s[1..])
  }

  /** `split_whitespace`. */
  function Tokens(s: string): seq<string>
    decreases |s|
  {
    if s == "" then []
    else if IsSpace(s[0]) then Tokens(s[1..])
    else [s[..TokenEnd(s)]] + Tokens(s[TokenEnd(s)..])
  }

  // ----- fan triangulation -------------------------------------------------------------------

  function Fan(face: seq<nat>): (r: seq<nat>)
    ensures |r| == if |face| < 3 then 0 else 3 * (|face| - 2)
  {
    if |face| < 3 then [] else Fan(face[..|face| - 1]) + [face[0], face[|face| - 2], face[|face| - 1]]
  }

  /** Consecutive corners. */
  function Rim(face: seq<nat>): seq<MV.EdgeT> {
    if |face| < 2 then [] else Rim(face[..|face| - 1]) + [(face[|face| - 2], face[|face| - 1])]
  }

  /** The polygon's boundary, walked once around. */
  function Boundary(face: seq<nat>): seq<MV.EdgeT>
    requires face != []
  {
    Rim(face) + [(face[|face| - 1], face[0])]
  }

  /** From the first corner to every corner that is not its neighbour. */
  function Diagonals(face: seq<nat>): seq<MV.EdgeT> {
    if |face| < 4 then [] else Diagonals(face[..|face| - 1]) + [(face[0], face[|face| - 2])]
  }

  lemma {:induction false} EdgesAppend(a: seq<nat>, x: nat, y: nat, z: nat)
    requires |a| % 3 == 0
    ensures MV.Edges(a + [x, y, z]) == MV.Edges(a) + [(x, y), (y, z), (z, x)]
    decreases |a|
  {
    var all := a + [x, y, z];
    if a == [] {
      assert all == [x, y, z] && all[3..] == [];
      assert MV.Edges(all[3..]) == [];
    } else {
      assert all[0] == a[0] && all[1] == a[1] && all[2] == a[2] && all[3..] == a[3..] + [x, y, z];
      EdgesAppend(a[3..], x, y, z);
    }
  }

  lemma {:induction false} TurnedAppend(a: seq<MV.EdgeT>, e: MV.EdgeT)
    ensures MV.Turned(a + [e]) == MV.Turned(a) + [MV.Turn(e)]
    decreases |a|
  {
    if a == [] {
      assert [] + [e] == [e] && [e][1..] == [];
      assert MV.Turned([e][1..]) == [];
    } else {
      assert (a + [e])[0] == a[0] && (a + [e])[1..] == a[1..] + [e];
      TurnedAppend(a[1..], e);
    }
  }

  function Times(es: seq<MV.EdgeT>, e: MV.EdgeT): nat {
    multiset(es)[e]
  }

  /**
   The directed edges of a fan are those of the polygon's boundary plus every diagonal once in
   each direction: cancelling reverse pairs leaves exactly the boundary.
   */
  lemma FanBoundary(face: seq<nat>)
    requires |face| >= 3
    ensures multiset(MV.Edges(Fan(face)))
         == multiset(Boundary(face)) + multiset(Diagonals(face)) + multiset(MV.Turned(Diagonals(face)))
  {
    var edges, rim, out, turned := MV.Edges(Fan(face)), Boundary(face), Diagonals(face), MV.Turned(Diagonals(face));
    forall e: MV.EdgeT
      ensures Times(edges, e) == Times(rim, e) + Times(out, e) + Times(turned, e)
    {
      FanCounts(face, e);
    }
    SameBag(edges, rim, out, turned);
  }

  lemma SameBag(edges: seq<MV.EdgeT>, rim: seq<MV.EdgeT>, out: seq<MV.EdgeT>, turned: seq<MV.EdgeT>)
    requires forall e: MV.EdgeT :: Times(edges, e) == Times(rim, e) + Times(out, e) + Times(turned, e)
    ensures multiset(edges) == multiset(rim) + multiset(out) + multiset(turned)
  {
    forall e: MV.EdgeT
      ensures multiset(edges)[e] == (multiset(rim) + multiset(out) + multiset(turned))[e]
    {
      assert Times(edges, e) == Times(rim, e) + Times(out, e) + Times(turned, e);
    }
  }

  lemma {:induction false} FanCounts(face: seq<nat>, e: MV.EdgeT)
    requires |face| >= 3
    ensures Times(MV.Edges(Fan(face)), e)
         == Times(Boundary(face), e) + Times(Diagonals(face), e) + Times(MV.Turned(Diagonals(face)), e)
    decreases |face|
  {
    if |face| == 3 {
      TriangleCounts(face, e);
    } else {
      FanCounts(face[..|face| - 1], e);
      CountsGrow(face, e);
    }
  }

  lemma CountsGrow(face: seq<nat>, e: MV.EdgeT)
    requires |face| >= 4
    requires var front := face[..|face| - 1];
             Times(MV.Edges(Fan(front)), e) == Times(Boundary(front), e) + Times(Diagonals(front), e) + Times(MV.Turned(Diagonals(front)), e)
    ensures Times(MV.Edges(Fan(face)), e) == Times(Boundary(face), e) + Times(Diagonals(face), e) + Times(MV.Turned(Diagonals(face)), e)
  {
    EdgesGrow(face, e);
    BoundaryGrows(face, e);
    DiagonalsGrow(face, e);
    TurnedGrow(face, e);
  }

  function One(e: MV.EdgeT, x: nat, y: nat): nat {
    if e == (x, y) then 1 else 0
  }

  lemma EdgesGrow(face: seq<nat>, e: MV.EdgeT)
    requires |face| >= 4
    ensures Times(MV.Edges(Fan(face)), e)
         == Times(MV.Edges(Fan(face[..|face| - 1])), e)
          + One(e, face[0], face[|face| - 2]) + One(e, face[|face| - 2], face[|face| - 1]) + One(e, face[|face| - 1], face[0])
  {
    var x, y, z := face[0], face[|face| - 2], face[|face| - 1];
    var before := Fan(face[..|face| - 1]);
    FanUnfolds(face);
    EdgesAppend(before, x, y, z);
    TimesAppended(MV.Edges(before), (x, y), (y, z), (z, x), e);
  }

  lemma TimesAppended(s: seq<MV.EdgeT>, a: MV.EdgeT, b: MV.EdgeT, c: MV.EdgeT, e: MV.EdgeT)
    ensures Times(s + [a, b, c], e) == Times(s, e) + One(e, a.0, a.1) + One(e, b.0, b.1) + One(e, c.0, c.1)
  {
    AppendThree(s, a, b, c);
  }

  lemma FanUnfolds(face: seq<nat>)
    requires |face| >= 4
    ensures Fan(face) == Fan(face[..|face| - 1]) + [face[0], face[|face| - 2], face[|face| - 1]]
    ensures |Fan(face[..|face| - 1])| % 3 == 0
  {
  }

  lemma AppendThree(s: seq<MV.EdgeT>, a: MV.EdgeT, b: MV.EdgeT, c: MV.EdgeT)
    ensures multiset(s + [a, b, c]) == multiset(s) + multiset{a, b, c}
  {
  }

  /** The closing edge of the smaller polygon gives way to the two edges at the new corner. */
  lemma BoundaryGrows(face: seq<nat>, e: MV.EdgeT)
    requires |face| >= 4
    ensures var x, y, z := face[0], face[|face| - 2], face[|face| - 1];
            Times(Boundary(face), e) + One(e, y, x) == Times(Boundary(face[..|face| - 1]), e) + One(e, y, z) + One(e, z, x)
  {
    var n, front := |face|, face[..|face| - 1];
    var rim := Rim(front);
    assert Boundary(front) == rim + [(face[n - 2], face[0])];
    assert Boundary(face) == rim + [(face[n - 2], face[n - 1])] + [(face[n - 1], face[0])];
  }

  lemma DiagonalsGrow(face: seq<nat>, e: MV.EdgeT)
    requires |face| >= 4
    ensures Times(Diagonals(face), e) == Times(Diagonals(face[..|face| - 1]), e) + One(e, face[0], face[|face| - 2])
  {
    assert Diagonals(face) == Diagonals(face[..|face| - 1]) + [(face[0], face[|face| - 2])];
  }

  lemma TurnedGrow(face: seq<nat>, e: MV.EdgeT)
    requires |face| >= 4
    ensures Times(MV.Turned(Diagonals(face)), e)
         == Times(MV.Turned(Diagonals(face[..|face| - 1])), e) + One(e, face[|face| - 2], face[0])
  {
    TurnedAppend(Diagonals(face[..|face| - 1]), (face[0], face[|face| - 2]));
  }

  lemma FanOfThree(face: seq<nat>)
    requires |face| == 3
    ensures Fan(face) == face
  {
    assert Fan(face[..2]) == [];
    assert [] + [face[0], face[1], face[2]] == face;
  }

  lemma EdgesOfThree(face: seq<nat>)
    requires |face| == 3
    ensures MV.Edges(face) == [(face[0], face[1]), (face[1], face[2]), (face[2], face[0])]
  {
    assert MV.Edges(face[3..]) == [];
  }

  lemma BoundaryOfThree(face: seq<nat>)
    requires |face| == 3
    ensures Boundary(face) == [(face[0], face[1]), (face[1], face[2]), (face[2], face[0])] && Diagonals(face) == []
  {
    var two, one := face[..2], face[..1];
    assert two[..1] == one;
    assert Rim(one) == [];
    assert Rim(two) == [(face[0], face[1])];
    assert Rim(face) == [(face[0], face[1]), (face[1], face[2])];
  }

  lemma TriangleCounts(face: seq<nat>, e: MV.EdgeT)
    requires |face| == 3
    ensures Times(MV.Edges(Fan(face)), e) == Times(Boundary(face), e)
    ensures Times(Diagonals(face), e) == 0 && Times(MV.Turned(Diagonals(face)), e) == 0
  {
    FanOfThree(face);
    EdgesOfThree(face);
    BoundaryOfThree(face);
    assert MV.Turned([]) == [];
  }

  method FanLoop(indices: seq<nat>, face: seq<nat>) returns (r: seq<nat>)
    requires |face| >= 3
    ensures r == indices + Fan(face)
  {
    r := indices;
    assert face[..2] == [face[0], face[1]];
    for k := 1 to |face| - 1
      invariant r == indices + Fan(face[..k + 1])
    {
      assert face[..k + 2][..k + 1] == face[..k + 1];
      r := r + [face[0], face[k], face[k + 1]];
    }
    assert face[..|face|] == face;
  }

  // ----- reader ---------------------------------------------------------------------------------

  /** A face token `v/vt/vn` as a vertex number; negative numbers count back from the last vertex. */
  function ResolveIndex(token: string, vertices: nat): (r: Result<nat, ObjProblem>)
    ensures r.Ok? ==> r.value < vertices
  {
    var idx := ParseInt(Split(token, '/')[0]);
    if idx.None? then Err(BadIndex(token))
    else if idx.value == 0 then Err(ZeroIndex)
    else
      var resolved := if idx.value > 0 then idx.value - 1 else vertices + idx.value;
      if resolved < 0 || resolved >= vertices then Err(OutOfRange(idx.value)) else Ok(resolved)
  }

  lemma BeforeSlash(a: string, rest: string)
    requires '/' !in a && (rest == "" || rest[0] == '/')
    ensures Split(a + rest, '/')[0] == a
  {
    if rest == "" {
      assert a + rest == a;
    } else {
      FindAfter(a, '/', rest[1..]);
      var s := a + ['/'] + rest[1..];
      assert a + rest == s && s[..|a|] == a;
    }
  }

  lemma DecimalNegated(n: nat)
    requires 1 <= n <= MAX_I64
    ensures ParseInt("-" + Decimal(n)) == Some(-(n as int)) && '/' !in "-" + Decimal(n) && '/' !in Decimal(n)
  {
    var s := "-" + Decimal(n);
    DecimalReads(n);
    assert s[0] == '-' && s[1..] == Decimal(n);
    assert forall i :: 0 <= i < |Decimal(n)| ==> IsDigit(Decimal(n)[i]);
    assert forall c :: c in s ==> c == '-' || c in Decimal(n);
  }

  /** A token names vertex `v` exactly by the number from 1 or by the distance from the end. */
  lemma IndexMeans(token: string, vertices: nat, v: nat)
    ensures ResolveIndex(token, vertices) == Ok(v) <==>
      v < vertices && (ParseInt(Split(token, '/')[0]) == Some(v + 1) || ParseInt(Split(token, '/')[0]) == Some(v - vertices))
  {
  }

  /** Vertex `v` is named by its number from 1 and by its distance from the end, whatever follows a slash. */
  lemma IndexNames(v: nat, vertices: nat, rest: string)
    requires v < vertices <= MAX_I64 && (rest == "" || rest[0] == '/')
    ensures ResolveIndex(Decimal(v + 1) + rest, vertices) == Ok(v)
    ensures ResolveIndex("-" + Decimal(vertices - v) + rest, vertices) == Ok(v)
  {
    hide ParseInt, Decimal, Split, ResolveIndex;
    DecimalNegated(v + 1);
    DecimalParses(v + 1);
    BeforeSlash(Decimal(v + 1), rest);
    IndexMeans(Decimal(v + 1) + rest, vertices, v);
    DecimalNegated(vertices - v);
    BeforeSlash("-" + Decimal(vertices - v), rest);
    IndexMeans("-" + Decimal(vertices - v) + rest, vertices, v);
  }

  function ResolveFace(tokens: seq<string>, vertices: nat): (r: Result<seq<nat>, ObjProblem>)
    ensures r.Ok? ==> |r.value| == |tokens| && forall i :: 0 <= i < |r.value| ==> r.value[i] < vertices
  {
    if tokens == [] then Ok([]) else
      var first := ResolveIndex(tokens[0], vertices);
      if first.Err? then Err(first.error) else
        var rest := ResolveFace(tokens[1..], vertices);
        if rest.Err? then Err(rest.error) else Ok([first.value] + rest.value)
  }

  function ReadVertex<F>(ft: FloatText<F>, tokens: seq<string>): Result<Stl.Vertex<F>, ObjProblem> {
    if |tokens| < 3 || ft.read(tokens[0]).None? || ft.read(tokens[1]).None? || ft.read(tokens[2]).None? then Err(BadVertex)
    else Ok(Stl.Vertex(ft.read(tokens[0]).value, ft.read(tokens[1]).value, ft.read(tokens[2]).value))
  }

  function AddFace<F>(m: MeshOf<F>, tokens: seq<string>): Result<MeshOf<F>, ObjProblem> {
    var face := ResolveFace(tokens, |m.positions|);
    if face.Err? then Err(face.error)
    else if |face.value| < 3 then Err(ShortFace)
    else
      var m' := m.(indices := m.indices + Fan(face.value));
      if Stl.TriangleCount(m') > Stl.MAX_IMPORT_TRIANGLES then Err(TooManyTriangles) else Ok(m')
  }

  /** What the words of a line ask for; a line that is neither vertex nor face is ignored. */
  function ReadTokens<F>(ft: FloatText<F>, m: MeshOf<F>, tokens: seq<string>): Result<MeshOf<F>, ObjProblem> {
    if tokens == [] then Ok(m)
    else if tokens[0] == "v" then
      var p := ReadVertex(ft, tokens[1..]);
      if p.Err? then Err(p.error) else Ok(m.(positions := m.positions + [p.value]))
    else if tokens[0] == "f" then AddFace(m, tokens[1..])
    else Ok(m)
  }

  function ReadLine<F>(ft: FloatText<F>, m: MeshOf<F>, raw: string): Result<MeshOf<F>, ObjProblem> {
    var line := Trim(raw);
    if line == "" || line[0] == '#' then Ok(m) else ReadTokens(ft, m, Tokens(line))
  }

  function ReadLines<F>(ft: FloatText<F>, m: MeshOf<F>, lines: seq<string>, number: nat): Result<MeshOf<F>, ObjError>
    decreases |lines|
  {
    if lines == [] then Ok(m) else
      var next := ReadLine(ft, m, lines[0]);
      if next.Err? then Err(At(number, next.error)) else ReadLines(ft, next.value, lines[1..], number + 1)
  }

  /** `parse` for OBJ. */
  function ParseObj<F>(ft: FloatText<F>, text: string): Result<MeshOf<F>, ObjError> {
    var m := ReadLines(ft, Stl.Mesh([], []), Lines(text), 1);
    if m.Ok? && Stl.TriangleCount(m.value) == 0 then Err(ObjError(0, NoTriangles)) else m
  }

  /** A result for the tokens still to come, behind what has been resolved already. */
  function Behind(face: seq<nat>, rest: Result<seq<nat>, ObjProblem>): Result<seq<nat>, ObjProblem> {
    if rest.Err? then rest else Ok(face + rest.value)
  }

  lemma BehindNothing(rest: Result<seq<nat>, ObjProblem>)
    ensures Behind([], rest) == rest
  {
    if rest.Ok? {
      assert [] + rest.value == rest.value;
    }
  }

  lemma BehindOneMore(face: seq<nat>, x: nat, rest: Result<seq<nat>, ObjProblem>)
    ensures Behind(face, if rest.Err? then Err(rest.error) else Ok([x] + rest.value)) == Behind(face + [x], rest)
  {
    if rest.Ok? {
      assert face + ([x] + rest.value) == face + [x] + rest.value;
    }
  }

  method ResolveFaceLoop(tokens: seq<string>, vertices: nat) returns (r: Result<seq<nat>, ObjProblem>)
    ensures r == ResolveFace(tokens, vertices)
  {
    var face: seq<nat> := [];
    ghost var whole := ResolveFace(tokens, vertices);
    var i := 0;
    assert tokens[0..] == tokens;
    BehindNothing(whole);
    while i < |tokens|
      invariant 0 <= i <= |tokens|
      invariant whole == Behind(face, ResolveFace(tokens[i..], vertices))
    {
      assert tokens[i..][0] == tokens[i] && tokens[i..][1..] == tokens[i + 1..];
      var one := ResolveIndex(tokens[i], vertices);
      if one.Err? {
        return Err(one.error);
      }
      BehindOneMore(face, one.value, ResolveFace(tokens[i + 1..], vertices));
      face := face + [one.value];
      i := i + 1;
    }
    assert tokens[i..] == [] && face + [] == face;
    return Ok(face);
  }

  method FromObj<F>(ft: FloatText<F>, text: string) returns (r: Result<MeshOf<F>, ObjError>)
    ensures r == ParseObj(ft, text)
  {
    var positions: seq<Stl.Vertex<F>>, indices: seq<nat> := [], [];
    var lines := Lines(text);
    ghost var whole := ReadLines(ft, Stl.Mesh([], []), lines, 1);
    var n := 0;
    assert lines[0..] == lines;
    while n < |lines|
      invariant 0 <= n <= |lines|
      invariant whole == ReadLines(ft, Stl.Mesh(positions, indices), lines[n..], n + 1)
    {
      assert lines[n..][0] == lines[n] && lines[n..][1..] == lines[n + 1..];
      var line := Trim(lines[n]);
      n := n + 1;
      if line == "" || line[0] == '#' {
        continue;
      }
      var tokens := Tokens(line);
      if tokens != [] && tokens[0] == "v" {
        var p := ReadVertex(ft, tokens[1..]);
        if p.Err? {
          return Err(At(n, p.error));
        }
        positions := positions + [p.value];
      } else if tokens != [] && tokens[0] == "f" {
        var face := ResolveFaceLoop(tokens[1..], |positions|);
        if face.Err? {
          return Err(At(n, face.error));
        }
        if |face.value| < 3 {
          return Err(ObjError(n, ShortFace));
        }
        indices := FanLoop(indices, face.value);
        if |indices| / 3 > Stl.MAX_IMPORT_TRIANGLES {
          return Err(At(n, TooManyTriangles));
        }
      }
    }
    assert lines[n..] == [];
    if |indices| / 3 == 0 {
      return Err(ObjError(0, NoTriangles));
    }
    return Ok(Stl.Mesh(positions, indices));
  }

  // ----- what an accepted file is -------------------------------------------------------------------

  ghost predicate Sane<F>(m: MeshOf<F>) {
    Stl.ValidMesh(m) && |m.indices| % 3 == 0 && Stl.TriangleCount(m) <= Stl.MAX_IMPORT_TRIANGLES
  }

  lemma {:induction false} FanInRange(face: seq<nat>, count: nat)
    requires forall i :: 0 <= i < |face| ==> face[i] < count
    ensures forall i :: 0 <= i < |Fan(face)| ==> Fan(face)[i] < count
    decreases |face|
  {
    if |face| >= 3 {
      FanInRange(face[..|face| - 1], count);
    }
  }

  lemma AddFaceSane<F>(m: MeshOf<F>, tokens: seq<string>)
    requires Sane(m) && AddFace(m, tokens).Ok?
    ensures Sane(AddFace(m, tokens).value)
  {
    var face := ResolveFace(tokens, |m.positions|).value;
    FanInRange(face, |m.positions|);
  }

  lemma ReadLineSane<F>(ft: FloatText<F>, m: MeshOf<F>, raw: string)
    requires Sane(m) && ReadLine(ft, m, raw).Ok?
    ensures Sane(ReadLine(ft, m, raw).value)
  {
    var line := Trim(raw);
    if line != "" && line[0] != '#' {
      ReadTokensSane(ft, m, Tokens(line));
    }
  }

  lemma ReadTokensSane<F>(ft: FloatText<F>, m: MeshOf<F>, tokens: seq<string>)
    requires Sane(m) && ReadTokens(ft, m, tokens).Ok?
    ensures Sane(ReadTokens(ft, m, tokens).value)
  {
    if tokens != [] && tokens[0] == "f" {
      AddFaceSane(m, tokens[1..]);
    }
  }

  lemma {:induction false} ReadLinesSane<F>(ft: FloatText<F>, m: MeshOf<F>, lines: seq<string>, number: nat)
    requires Sane(m) && ReadLines(ft, m, lines, number).Ok?
    ensures Sane(ReadLines(ft, m, lines, number).value)
    decreases |lines|
  {
    if lines != [] {
      ReadLineSane(ft, m, lines[0]);
      ReadLinesSane(ft, ReadLine(ft, m, lines[0]).value, lines[1..], number + 1);
    }
  }

  /** Every accepted file is a mesh of 1 to 100000 whole triangles with all indices in range. */
  lemma AcceptedIsSane<F>(ft: FloatText<F>, text: string)
    requires ParseObj(ft, text).Ok?
    ensures Sane(ParseObj(ft, text).value) && Stl.TriangleCount(ParseObj(ft, text).value) >= 1
  {
    ReadLinesSane(ft, Stl.Mesh([], []), Lines(text), 1);
  }

  // ----- writer -------------------------------------------------------------------------------------

  const OBJ_HEADER: string := "# worldos geometry.export"

  function VertexLine<F>(ft: FloatText<F>, v: Stl.Vertex<F>): string {
    "v" + " " + (ft.format(v.x) + " " + (ft.format(v.y) + " " + ft.format(v.z)))
  }

  function FaceLine(a: nat, b: nat, c: nat): string {
    "f" + " " + (Decimal(a + 1) + " " + (Decimal(b + 1) + " " + Decimal(c + 1)))
  }

  function VertexLines<F>(ft: FloatText<F>, positions: seq<Stl.Vertex<F>>): seq<string> {
    if positions == [] then [] else [VertexLine(ft, positions[0])] + VertexLines(ft, positions[1..])
  }

  /** One line for each whole triangle. */
  function FaceLines(indices: seq<nat>): seq<string> {
    if |indices| < 3 then [] else [FaceLine(indices[0], indices[1], indices[2])] + FaceLines(indices[3..])
  }

  function ObjLines<F>(ft: FloatText<F>, m: MeshOf<F>): seq<string> {
    [OBJ_HEADER] + VertexLines(ft, m.positions) + FaceLines(m.indices)
  }

  function Joined(lines: seq<string>): string {
    if lines == [] then "" else lines[0] + "\n" + Joined(lines[1..])
  }

  lemma {:induction false} JoinedAppend(lines: seq<string>, last: string)
    ensures Joined(lines + [last]) == Joined(lines) + (last + "\n")
    decreases |lines|
  {
    var all := lines + [last];
    if lines == [] {
      assert all == [last] && all[1..] == [];
      assert Joined(all) == last + "\n" + "" == last + "\n";
      assert "" + (last + "\n") == last + "\n";
    } else {
      assert all[0] == lines[0] && all[1..] == lines[1..] + [last];
      JoinedAppend(lines[1..], last);
    }
  }

  lemma {:induction false} VertexLinesAppend<F>(ft: FloatText<F>, ps: seq<Stl.Vertex<F>>, p: Stl.Vertex<F>)
    ensures VertexLines(ft, ps + [p]) == VertexLines(ft, ps) + [VertexLine(ft, p)]
    decreases |ps|
  {
    var all := ps + [p];
    if ps == [] {
      assert all == [p] && all[1..] == [];
    } else {
      assert all[0] == ps[0] && all[1..] == ps[1..] + [p];
      VertexLinesAppend(ft, ps[1..], p);
    }
  }

  lemma {:induction false} FaceLinesAppend(indices: seq<nat>, a: nat, b: nat, c: nat)
    requires |indices| % 3 == 0
    ensures FaceLines(indices + [a, b, c]) == FaceLines(indices) + [FaceLine(a, b, c)]
    decreases |indices|
  {
    var all := indices + [a, b, c];
    if indices == [] {
      assert all == [a, b, c] && all[3..] == [];
    } else {
      assert all[0] == indices[0] && all[1] == indices[1] && all[2] == indices[2] && all[3..] == indices[3..] + [a, b, c];
      FaceLinesAppend(indices[3..], a, b, c);
    }
  }

  method ToObj<F>(ft: FloatText<F>, m: MeshOf<F>) returns (text: string)
    requires Stl.ValidMesh(m)
    ensures text == Joined(ObjLines(ft, m))
  {
    JoinedAppend([], OBJ_HEADER);
    assert [] + [OBJ_HEADER] == [OBJ_HEADER] && "" + (OBJ_HEADER + "\n") == OBJ_HEADER + "\n";
    text := WriteVertices(ft, m, OBJ_HEADER + "\n", [OBJ_HEADER]);
    text := WriteFaces(ft, m, text, [OBJ_HEADER] + VertexLines(ft, m.positions));
  }

  method WriteVertices<F>(ft: FloatText<F>, m: MeshOf<F>, before: string, ghost head: seq<string>) returns (text: string)
    requires before == Joined(head)
    ensures text == Joined(head + VertexLines(ft, m.positions))
  {
    text := before;
    assert m.positions[..0] == [] && head + [] == head;
    for i := 0 to |m.positions|
      invariant text == Joined(head + VertexLines(ft, m.positions[..i]))
    {
      var line := VertexLine(ft, m.positions[i]);
      text := text + (line + "\n");
      VertexLinesNext(ft, m.positions, i, head);
    }
    assert m.positions[..|m.positions|] == m.positions;
  }

  method WriteFaces<F>(ft: FloatText<F>, m: MeshOf<F>, before: string, ghost head: seq<string>) returns (text: string)
    requires before == Joined(head)
    ensures text == Joined(head + FaceLines(m.indices))
  {
    text := before;
    assert m.indices[..0] == [] && head + [] == head;
    for t := 0 to Stl.TriangleCount(m)
      invariant text == Joined(head + FaceLines(m.indices[..3 * t]))
    {
      var line := FaceLine(m.indices[3 * t], m.indices[3 * t + 1], m.indices[3 * t + 2]);
      text := text + (line + "\n");
      FaceLinesNext(m.indices, t, head);
    }
    FaceLinesOfWhole(m.indices);
  }

  lemma VertexLinesNext<F>(ft: FloatText<F>, ps: seq<Stl.Vertex<F>>, i: nat, head: seq<string>)
    requires i < |ps|
    ensures Joined(head + VertexLines(ft, ps[..i + 1])) == Joined(head + VertexLines(ft, ps[..i])) + (VertexLine(ft, ps[i]) + "\n")
  {
    var lines, line := VertexLines(ft, ps[..i]), VertexLine(ft, ps[i]);
    assert ps[..i] + [ps[i]] == ps[..i + 1];
    VertexLinesAppend(ft, ps[..i], ps[i]);
    JoinedAppend(head + lines, line);
    assert head + lines + [line] == head + (lines + [line]);
  }

  lemma OneMoreTriangle(indices: seq<nat>, t: nat)
    requires 3 * t + 3 <= |indices|
    ensures indices[..3 * t] + [indices[3 * t], indices[3 * t + 1], indices[3 * t + 2]] == indices[..3 * (t + 1)]
  {
  }

  lemma FaceLinesNext(indices: seq<nat>, t: nat, head: seq<string>)
    requires 3 * t + 3 <= |indices|
    ensures Joined(head + FaceLines(indices[..3 * (t + 1)]))
         == Joined(head + FaceLines(indices[..3 * t])) + (FaceLine(indices[3 * t], indices[3 * t + 1], indices[3 * t + 2]) + "\n")
  {
    var a, b, c := indices[3 * t], indices[3 * t + 1], indices[3 * t + 2];
    var lines, line := FaceLines(indices[..3 * t]), FaceLine(a, b, c);
    OneMoreTriangle(indices, t);
    FaceLinesAppend(indices[..3 * t], a, b, c);
    JoinedAppend(head + lines, line);
    assert head + lines + [line] == head + (lines + [line]);
  }

  /** Indices left over after the last whole triangle are not written. */
  lemma {:induction false} FaceLinesOfWhole(indices: seq<nat>)
    ensures FaceLines(indices) == FaceLines(indices[..3 * (|indices| / 3)])
    decreases |indices|
  {
    var whole := indices[..3 * (|indices| / 3)];
    if |indices| >= 3 {
      var rest := indices[3..];
      FaceLinesOfWhole(rest);
      assert |rest| / 3 == |indices| / 3 - 1;
      assert whole[3..] == rest[..3 * (|rest| / 3)];
      assert whole[0] == indices[0] && whole[1] == indices[1] && whole[2] == indices[2];
    } else {
      assert |whole| == 0;
    }
  }

  // ----- reading back what was written ------------------------------------------------------------------

  ghost predicate OneLine(t: string) {
    '\n' !in t
  }

  lemma {:induction false} JoinedSplits(lines: seq<string>)
    requires forall i :: 0 <= i < |lines| ==> OneLine(lines[i])
    ensures Split(Joined(lines), '\n') == lines + [""]
    decreases |lines|
  {
    if lines != [] {
      assert OneLine(lines[0]);
      JoinedSplits(lines[1..]);
      SplitHead(lines[0], Joined(lines[1..]));
      Headed(lines);
    }
  }

  lemma Headed(lines: seq<string>)
    requires lines != []
    ensures [lines[0]] + (lines[1..] + [""]) == lines + [""]
  {
  }

  lemma SplitHead(line: string, rest: string)
    requires OneLine(line)
    ensures Split(line + "\n" + rest, '\n') == [line] + Split(rest, '\n')
  {
    var s := line + ['\n'] + rest;
    FindAfter(line, '\n', rest);
    assert s[..|line|] == line && s[|line| + 1..] == rest;
  }

  lemma JoinedLines(lines: seq<string>)
    requires forall i :: 0 <= i < |lines| ==> OneLine(lines[i])
    ensures Lines(Joined(lines)) == lines
  {
    JoinedSplits(lines);
    var parts := lines + [""];
    assert parts[..|parts| - 1] == lines;
  }

  lemma {:induction false} TokenEnds(w: string, rest: string)
    requires forall i :: 0 <= i < |w| ==> !IsSpace(w[i])
    requires rest == "" || IsSpace(rest[0])
    ensures TokenEnd(w + rest) == |w|
    decreases |w|
  {
    var s := w + rest;
    if w == "" {
      assert s == rest;
    } else {
      assert s[0] == w[0] && s[1..] == w[1..] + rest;
      TokenEnds(w[1..], rest);
    }
  }

  lemma TokensLast(w: string)
    requires Token(w)
    ensures Tokens(w) == [w]
  {
    TokenEnds(w, "");
    assert w + "" == w && w[..|w|] == w && w[|w|..] == "";
  }

  lemma TokensMore(w: string, rest: string)
    requires Token(w)
    ensures Tokens(w + " " + rest) == [w] + Tokens(rest)
  {
    var tail := " " + rest;
    var s := w + tail;
    assert w + " " + rest == s;
    TokenEnds(w, tail);
    assert s[0] == w[0] && s[..|w|] == w && s[|w|..] == tail;
    assert tail[0] == ' ' && tail[1..] == rest;
    assert Tokens(tail) == Tokens(rest);
  }

  function Spaced(a: string, b: string): string {
    a + " " + b
  }

  lemma SpacedEnds(a: string, b: string)
    requires Token(a) && Tight(b) && OneLine(b)
    ensures Tight(Spaced(a, b)) && OneLine(Spaced(a, b)) && Spaced(a, b)[0] == a[0]
    ensures Tokens(Spaced(a, b)) == [a] + Tokens(b)
  {
    var s := Spaced(a, b);
    assert s[0] == a[0] && s[|s| - 1] == b[|b| - 1];
    TokenOneLine(a);
    TokensMore(a, b);
  }

  lemma TokenOneLine(t: string)
    requires Token(t)
    ensures OneLine(t) && Tight(t)
  {
  }

  /** A line of four words separated by single blanks. */
  lemma FourWords(k: string, x: string, y: string, z: string)
    requires Token(k) && Token(x) && Token(y) && Token(z)
    ensures var line := k + " " + (x + " " + (y + " " + z));
            Tokens(line) == [k, x, y, z] && Trim(line) == line && OneLine(line) && line[0] == k[0]
  {
    TokensLast(z);
    TokenOneLine(z);
    SpacedEnds(y, z);
    SpacedEnds(x, Spaced(y, z));
    SpacedEnds(k, Spaced(x, Spaced(y, z)));
    TrimTight(Spaced(k, Spaced(x, Spaced(y, z))));
  }

  lemma DecimalToken(n: nat)
    ensures Token(Decimal(n))
  {
    var s := Decimal(n);
    assert forall i :: 0 <= i < |s| ==> IsDigit(s[i]);
  }

  lemma WordsRead<F>(ft: FloatText<F>, m: MeshOf<F>, k: string, x: string, y: string, z: string)
    requires Token(k) && Token(x) && Token(y) && Token(z) && k[0] != '#'
    ensures ReadLine(ft, m, k + " " + (x + " " + (y + " " + z))) == ReadTokens(ft, m, [k, x, y, z])
    ensures OneLine(k + " " + (x + " " + (y + " " + z)))
  {
    FourWords(k, x, y, z);
  }

  lemma VertexReads<F(!new)>(ft: FloatText<F>, m: MeshOf<F>, v: Stl.Vertex<F>)
    requires Faithful(ft)
    ensures ReadLine(ft, m, VertexLine(ft, v)) == Ok(m.(positions := m.positions + [v]))
    ensures OneLine(VertexLine(ft, v))
  {
    var x, y, z := ft.format(v.x), ft.format(v.y), ft.format(v.z);
    WordsRead(ft, m, "v", x, y, z);
    assert ["v", x, y, z][1..] == [x, y, z];
  }

  lemma IndexReads(a: nat, vertices: nat)
    requires a < vertices <= MAX_I64
    ensures ResolveIndex(Decimal(a + 1), vertices) == Ok(a)
  {
    IndexNames(a, vertices, "");
    assert Decimal(a + 1) + "" == Decimal(a + 1);
  }

  lemma FaceReads<F>(ft: FloatText<F>, m: MeshOf<F>, a: nat, b: nat, c: nat)
    requires a < |m.positions| && b < |m.positions| && c < |m.positions| <= MAX_I64
    requires (|m.indices| + 3) / 3 <= Stl.MAX_IMPORT_TRIANGLES
    ensures ReadLine(ft, m, FaceLine(a, b, c)) == Ok(m.(indices := m.indices + [a, b, c]))
    ensures OneLine(FaceLine(a, b, c))
  {
    var x, y, z := Decimal(a + 1), Decimal(b + 1), Decimal(c + 1);
    DecimalToken(a + 1);
    DecimalToken(b + 1);
    DecimalToken(c + 1);
    WordsRead(ft, m, "f", x, y, z);
    assert ["f", x, y, z][1..] == [x, y, z];
    TriangleAdds(m, a, b, c);
  }

  lemma TriangleAdds<F>(m: MeshOf<F>, a: nat, b: nat, c: nat)
    requires a < |m.positions| && b < |m.positions| && c < |m.positions| <= MAX_I64
    requires (|m.indices| + 3) / 3 <= Stl.MAX_IMPORT_TRIANGLES
    ensures AddFace(m, [Decimal(a + 1), Decimal(b + 1), Decimal(c + 1)]) == Ok(m.(indices := m.indices + [a, b, c]))
  {
    FaceResolves(a, b, c, |m.positions|);
    FanOfThree([a, b, c]);
  }

  lemma FaceResolves(a: nat, b: nat, c: nat, vertices: nat)
    requires a < vertices && b < vertices && c < vertices <= MAX_I64
    ensures ResolveFace([Decimal(a + 1), Decimal(b + 1), Decimal(c + 1)], vertices) == Ok([a, b, c])
  {
    var x, y, z := Decimal(a + 1), Decimal(b + 1), Decimal(c + 1);
    IndexReads(a, vertices);
    IndexReads(b, vertices);
    IndexReads(c, vertices);
    assert [x, y, z][1..] == [y, z] && [y, z][1..] == [z] && [z][1..] == [];
    assert ResolveFace([], vertices) == Ok([]);
    assert [c] + [] == [c] && [b] + [c] == [b, c] && [a] + [b, c] == [a, b, c];
    assert ResolveFace([z], vertices) == Ok([c]);
    assert ResolveFace([y, z], vertices) == Ok([b, c]);
  }

  ghost predicate Reads<F>(ft: FloatText<F>, m: MeshOf<F>, line: string, m': MeshOf<F>) {
    ReadLine(ft, m, line) == Ok(m') && OneLine(line)
  }

  /** The meshes met while reading, from before the first line to behind the last. */
  ghost predicate Course<F>(ft: FloatText<F>, lines: seq<string>, ms: seq<MeshOf<F>>) {
    && |ms| == |lines| + 1
    && forall i :: 0 <= i < |lines| ==> Reads(ft, ms[i], lines[i], ms[i + 1])
  }

  lemma {:induction false} CourseReads<F>(ft: FloatText<F>, lines: seq<string>, ms: seq<MeshOf<F>>, number: nat)
    requires Course(ft, lines, ms)
    ensures ReadLines(ft, ms[0], lines, number) == Ok(ms[|lines|])
    decreases |lines|
  {
    if lines != [] {
      assert Reads(ft, ms[0], lines[0], ms[1]);
      forall i | 0 <= i < |lines[1..]|
        ensures Reads(ft, ms[1..][i], lines[1..][i], ms[1..][i + 1])
      {
        assert Reads(ft, ms[i + 1], lines[i + 1], ms[i + 2]);
      }
      CourseReads(ft, lines[1..], ms[1..], number + 1);
    }
  }

  lemma {:induction false} VertexLineAt<F>(ft: FloatText<F>, ps: seq<Stl.Vertex<F>>, i: nat)
    requires i < |ps|
    ensures |VertexLines(ft, ps)| == |ps| && VertexLines(ft, ps)[i] == VertexLine(ft, ps[i])
    decreases |ps|
  {
    if i > 0 {
      VertexLineAt(ft, ps[1..], i - 1);
    } else if |ps| > 1 {
      VertexLineAt(ft, ps[1..], 0);
    } else {
      assert ps[1..] == [];
    }
  }

  lemma {:induction false} FaceLineAt(indices: seq<nat>, t: nat)
    requires t < |indices| / 3
    ensures |FaceLines(indices)| == |indices| / 3
    ensures FaceLines(indices)[t] == FaceLine(indices[3 * t], indices[3 * t + 1], indices[3 * t + 2])
    decreases |indices|
  {
    FaceLinesCount(indices);
    if t > 0 {
      var rest := indices[3..];
      assert |rest| / 3 == |indices| / 3 - 1;
      FaceLineAt(rest, t - 1);
      assert rest[3 * (t - 1)] == indices[3 * t] && rest[3 * (t - 1) + 1] == indices[3 * t + 1] && rest[3 * (t - 1) + 2] == indices[3 * t + 2];
    }
  }

  lemma {:induction false} FaceLinesCount(indices: seq<nat>)
    ensures |FaceLines(indices)| == |indices| / 3
    decreases |indices|
  {
    if |indices| >= 3 {
      FaceLinesCount(indices[3..]);
      assert |indices[3..]| / 3 == |indices| / 3 - 1;
    }
  }

  lemma HeaderReads<F>(ft: FloatText<F>, m: MeshOf<F>)
    ensures ReadLine(ft, m, OBJ_HEADER) == Ok(m) && OneLine(OBJ_HEADER)
  {
    assert Tight(OBJ_HEADER);
    TrimTight(OBJ_HEADER);
  }

  /** What has been read behind the first `i` lines of a written file. */
  function Written<F>(m: MeshOf<F>, i: nat): MeshOf<F> {
    if i == 0 then Stl.Mesh([], [])
    else if i <= |m.positions| then Stl.Mesh(m.positions[..i - 1], [])
    else if 3 * (i - 1 - |m.positions|) <= |m.indices| then Stl.Mesh(m.positions, m.indices[..3 * (i - 1 - |m.positions|)])
    else m
  }

  lemma WrittenLineReads<F(!new)>(ft: FloatText<F>, m: MeshOf<F>, i: nat)
    requires Faithful(ft) && Sane(m) && |m.positions| <= MAX_I64
    requires i < |ObjLines(ft, m)|
    ensures Reads(ft, Written(m, i), ObjLines(ft, m)[i], Written(m, i + 1))
  {
    var v := |m.positions|;
    ObjLinesCount(ft, m);
    if i == 0 {
      HeaderReads(ft, Written(m, 0));
      WrittenHeader(m);
    } else if i <= v {
      VertexLineWritten(ft, m, i);
      WrittenVertexReads(ft, m, i);
    } else {
      FaceLineFollows(ft, m, i - 1 - v);
    }
  }

  lemma FaceLineFollows<F(!new)>(ft: FloatText<F>, m: MeshOf<F>, t: nat)
    requires Sane(m) && |m.positions| <= MAX_I64 && t < Stl.TriangleCount(m)
    ensures 1 + |m.positions| + t < |ObjLines(ft, m)|
    ensures Reads(ft, Written(m, 1 + |m.positions| + t), ObjLines(ft, m)[1 + |m.positions| + t], Written(m, 2 + |m.positions| + t))
  {
    FaceLineWritten(ft, m, t);
    WrittenFaceReads(ft, m, t);
  }

  lemma VertexLineWritten<F>(ft: FloatText<F>, m: MeshOf<F>, i: nat)
    requires 1 <= i <= |m.positions|
    ensures i < |ObjLines(ft, m)| && ObjLines(ft, m)[i] == VertexLine(ft, m.positions[i - 1])
  {
    VertexLineAt(ft, m.positions, i - 1);
  }

  lemma FaceLineWritten<F>(ft: FloatText<F>, m: MeshOf<F>, t: nat)
    requires t < Stl.TriangleCount(m)
    ensures 1 + |m.positions| + t < |ObjLines(ft, m)|
    ensures ObjLines(ft, m)[1 + |m.positions| + t] == FaceLine(m.indices[3 * t], m.indices[3 * t + 1], m.indices[3 * t + 2])
  {
    ObjLinesCount(ft, m);
    FaceLineAt(m.indices, t);
  }

  lemma ObjLinesCount<F>(ft: FloatText<F>, m: MeshOf<F>)
    ensures |VertexLines(ft, m.positions)| == |m.positions| && |FaceLines(m.indices)| == Stl.TriangleCount(m)
    ensures |ObjLines(ft, m)| == 1 + |m.positions| + Stl.TriangleCount(m)
  {
    if m.positions != [] {
      VertexLineAt(ft, m.positions, 0);
    }
    FaceLinesCount(m.indices);
  }

  lemma WrittenHeader<F>(m: MeshOf<F>)
    requires Sane(m)
    ensures Written(m, 1) == Written(m, 0)
  {
    assert m.positions == [] ==> m.indices == [] by {
      if m.indices != [] {
        assert m.indices[0] < |m.positions|;
      }
    }
    assert m.indices[..0] == [];
    if m.positions != [] {
      assert m.positions[..0] == [];
    }
  }

  lemma WrittenVertexReads<F(!new)>(ft: FloatText<F>, m: MeshOf<F>, i: nat)
    requires Faithful(ft) && 1 <= i <= |m.positions|
    ensures Reads(ft, Written(m, i), VertexLine(ft, m.positions[i - 1]), Written(m, i + 1))
  {
    var p := m.positions[i - 1];
    VertexReads(ft, Stl.Mesh(m.positions[..i - 1], []), p);
    assert m.positions[..i - 1] + [p] == m.positions[..i];
    WrittenVertices(m, i);
  }

  lemma WrittenVertices<F>(m: MeshOf<F>, i: nat)
    requires 1 <= i <= |m.positions|
    ensures Written(m, i) == Stl.Mesh(m.positions[..i - 1], [])
    ensures Written(m, i + 1) == Stl.Mesh(m.positions[..i], [])
  {
    assert m.positions[..|m.positions|] == m.positions && m.indices[..0] == [];
  }

  lemma WrittenFaces<F>(m: MeshOf<F>, t: nat)
    requires Sane(m) && t <= Stl.TriangleCount(m)
    ensures Written(m, 1 + |m.positions| + t) == Stl.Mesh(m.positions, m.indices[..3 * t])
  {
    if t == 0 {
      assert m.positions[..|m.positions|] == m.positions && m.indices[..0] == [];
    }
  }

  lemma WrittenFaceReads<F>(ft: FloatText<F>, m: MeshOf<F>, t: nat)
    requires Sane(m) && |m.positions| <= MAX_I64 && t < Stl.TriangleCount(m)
    ensures Reads(ft, Written(m, 1 + |m.positions| + t), FaceLine(m.indices[3 * t], m.indices[3 * t + 1], m.indices[3 * t + 2]),
                  Written(m, 2 + |m.positions| + t))
  {
    var a, b, c := m.indices[3 * t], m.indices[3 * t + 1], m.indices[3 * t + 2];
    WrittenFaces(m, t);
    WrittenFaces(m, t + 1);
    FaceReads(ft, Stl.Mesh(m.positions, m.indices[..3 * t]), a, b, c);
    OneMoreTriangle(m.indices, t);
  }

  lemma WrittenCourse<F(!new)>(ft: FloatText<F>, m: MeshOf<F>) returns (ms: seq<MeshOf<F>>)
    requires Faithful(ft) && Sane(m) && |m.positions| <= MAX_I64
    ensures Course(ft, ObjLines(ft, m), ms) && ms[0] == Stl.Mesh([], []) && ms[|ms| - 1] == m
  {
    var lines := ObjLines(ft, m);
    ms := seq(|lines| + 1, i requires 0 <= i <= |lines| => Written(m, i));
    forall i | 0 <= i < |lines|
      ensures Reads(ft, ms[i], lines[i], ms[i + 1])
    {
      WrittenLineReads(ft, m, i);
    }
    ObjLinesCount(ft, m);
    WrittenLast(m);
  }

  lemma WrittenLast<F>(m: MeshOf<F>)
    requires Sane(m)
    ensures Written(m, 1 + |m.positions| + Stl.TriangleCount(m)) == m
  {
    assert m.indices[..|m.indices|] == m.indices;
  }

  /** The reader undoes the writer: same vertices, same triangles, in the same order. */
  lemma WriteThenRead<F(!new)>(ft: FloatText<F>, m: MeshOf<F>)
    requires Faithful(ft) && Sane(m) && Stl.TriangleCount(m) >= 1 && |m.positions| <= MAX_I64
    ensures ParseObj(ft, Joined(ObjLines(ft, m))) == Ok(m)
  {
    var lines := ObjLines(ft, m);
    var ms := WrittenCourse(ft, m);
    CourseReads(ft, lines, ms, 1);
    EveryLineIsOne(ft, lines, ms);
    JoinedLines(lines);
  }

  lemma EveryLineIsOne<F>(ft: FloatText<F>, lines: seq<string>, ms: seq<MeshOf<F>>)
    requires Course(ft, lines, ms)
    ensures forall i :: 0 <= i < |lines| ==> OneLine(lines[i])
  {
    forall i | 0 <= i < |lines|
      ensures OneLine(lines[i])
    {
      assert Reads(ft, ms[i], lines[i], ms[i + 1]);
    }
  }
}
