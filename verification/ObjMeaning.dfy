/** What an OBJ file says, line by line and word by word, and that the reader reads that. */
module ObjMeaning {
  import opened Prelude
  import opened Text
  import Stl
  import opened Obj

  // ----- words -------------------------------------------------------------------------------

  /** The first word of `s` is `s[a..b]`. */
  predicate FirstWord(s: string, a: nat, b: nat, word: string) {
    && a < b <= |s| && AllSpace(s[..a]) && s[a..b] == word && Token(word) && (b == |s| || IsSpace(s[b]))
  }

  /** `words` are the words of `s`: what stands between white space. */
  ghost predicate Worded(s: string, words: seq<string>)
    decreases |words|
  {
    if words == [] then AllSpace(s)
    else exists a: nat, b: nat :: FirstWord(s, a, b, words[0]) && Worded(s[b..], words[1..])
  }

  lemma {:induction false} WordEnds(s: string)
    ensures forall i :: 0 <= i < TokenEnd(s) ==> !IsSpace(s[i])
    ensures TokenEnd(s) == |s| || IsSpace(s[TokenEnd(s)])
    decreases |s|
  {
    if s != "" && !IsSpace(s[0]) {
      WordEnds(s[1..]);
      forall i | 0 <= i < TokenEnd(s)
        ensures !IsSpace(s[i])
      {
        if i > 0 {
          assert s[i] == s[1..][i - 1];
        }
      }
    }
  }

  /** White space in front changes nothing. */
  lemma SpaceBefore(space: string, s: string, words: seq<string>)
    requires AllSpace(space) && Worded(s, words)
    ensures Worded(space + s, words)
  {
    if words != [] {
      var a: nat, b: nat :| FirstWord(s, a, b, words[0]) && Worded(s[b..], words[1..]);
      WordShifts(space, s, a, b, words[0]);
      assert FirstWord(space + s, |space| + a, |space| + b, words[0]);
    }
  }

  lemma WordShifts(space: string, s: string, a: nat, b: nat, word: string)
    requires AllSpace(space) && FirstWord(s, a, b, word)
    ensures FirstWord(space + s, |space| + a, |space| + b, word) && (space + s)[|space| + b..] == s[b..]
  {
    var t, n := space + s, |space|;
    assert t[..n + a] == space + s[..a] && t[n + a..n + b] == s[a..b] && t[n + b..] == s[b..];
  }

  lemma {:induction false} SpaceBehind(s: string, words: seq<string>, space: string)
    requires AllSpace(space) && Worded(s, words)
    ensures Worded(s + space, words)
    decreases |words|
  {
    if words != [] {
      var a: nat, b: nat :| FirstWord(s, a, b, words[0]) && Worded(s[b..], words[1..]);
      var t := s + space;
      SpaceBehind(s[b..], words[1..], space);
      assert t[..a] == s[..a] && t[a..b] == s[a..b] && t[b..] == s[b..] + space;
      assert FirstWord(t, a, b, words[0]);
    }
  }

  lemma {:induction false} TokensMean(s: string)
    ensures Worded(s, Tokens(s))
    decreases |s|
  {
    if s == "" {
    } else if IsSpace(s[0]) {
      TokensMean(s[1..]);
      SpaceBefore(s[..1], s[1..], Tokens(s));
      assert s == s[..1] + s[1..];
    } else {
      var n := TokenEnd(s);
      WordEnds(s);
      TokensMean(s[n..]);
      assert Tokens(s) == [s[..n]] + Tokens(s[n..]);
      assert s[0..n] == s[..n] && Tokens(s)[1..] == Tokens(s[n..]);
      assert FirstWord(s, 0, n, Tokens(s)[0]);
    }
  }

  /** The words of a line. */
  function WordsOf(raw: string): seq<string> {
    Tokens(Trim(raw))
  }

  lemma WordsMean(raw: string)
    ensures Worded(raw, WordsOf(raw))
  {
    TrimMeans(raw);
    var line := Trim(raw);
    var a, b :| AllSpace(a) && AllSpace(b) && raw == a + line + b;
    TokensMean(line);
    SpaceBefore(a, line, WordsOf(raw));
    SpaceBehind(a + line, WordsOf(raw), b);
  }

  // ----- lines -------------------------------------------------------------------------------

  /** The number of the token before its first slash counts from one, or back from the last vertex. */
  predicate Names(token: string, count: nat, v: nat) {
    && v < count
    && var number := ParseInt(Split(token, '/')[0]);
       number == Some(v + 1) || number == Some(v - count)
  }

  ghost predicate NamesSome(token: string, count: nat) {
    exists v: nat :: Names(token, count, v)
  }

  ghost predicate AllNamed(tokens: seq<string>, count: nat) {
    forall i :: 0 <= i < |tokens| ==> NamesSome(tokens[i], count)
  }

  /** Triangle `j` of a polygon: its first corner and the two after the `j`-th. */
  predicate FanAt(tokens: seq<string>, count: nat, indices: seq<nat>, from: nat, j: nat)
    requires j + 2 < |tokens| && from + 3 * j + 3 <= |indices|
  {
    && Names(tokens[0], count, indices[from + 3 * j])
    && Names(tokens[j + 1], count, indices[from + 3 * j + 1])
    && Names(tokens[j + 2], count, indices[from + 3 * j + 2])
  }

  /** A face line adds the fan of its corners, or says what is wrong with it. */
  ghost predicate FaceDoes<F>(m: MeshOf<F>, tokens: seq<string>, r: Result<MeshOf<F>, ObjProblem>) {
    var count := |m.positions|;
    if !AllNamed(tokens, count) then r.Err? && (r.error.BadIndex? || r.error.ZeroIndex? || r.error.OutOfRange?)
    else if |tokens| < 3 then r == Err(ShortFace)
    else if (|m.indices| + 3 * (|tokens| - 2)) / 3 > 100000 then r == Err(TooManyTriangles)
    else r.Ok? && FanAdded(m, tokens, r.value)
  }

  ghost predicate FanAdded<F>(m: MeshOf<F>, tokens: seq<string>, after: MeshOf<F>)
    requires |tokens| >= 3
  {
    && after.positions == m.positions && m.indices <= after.indices
    && |after.indices| == |m.indices| + 3 * (|tokens| - 2)
    && forall j :: 0 <= j < |tokens| - 2 ==> FanAt(tokens, |m.positions|, after.indices, |m.indices|, j)
  }

  /** What one line does to the mesh read so far. */
  ghost predicate LineDoes<F>(ft: FloatText<F>, m: MeshOf<F>, words: seq<string>, r: Result<MeshOf<F>, ObjProblem>) {
    if words == [] || "#" <= words[0] then r == Ok(m)
    else if words[0] == "v" then
      if |words| >= 4 && ft.read(words[1]).Some? && ft.read(words[2]).Some? && ft.read(words[3]).Some? then
        r == Ok(m.(positions := m.positions + [Stl.Vertex(ft.read(words[1]).value, ft.read(words[2]).value, ft.read(words[3]).value)]))
      else r == Err(BadVertex)
    else if words[0] == "f" then FaceDoes(m, words[1..], r)
    else r == Ok(m)
  }

  lemma NamedReads(token: string, count: nat)
    ensures NamesSome(token, count) <==> ResolveIndex(token, count).Ok?
    ensures ResolveIndex(token, count).Ok? ==> Names(token, count, ResolveIndex(token, count).value)
  {
    if NamesSome(token, count) {
      var v: nat :| Names(token, count, v);
      IndexMeans(token, count, v);
    }
    if ResolveIndex(token, count).Ok? {
      var v := ResolveIndex(token, count).value;
      IndexMeans(token, count, v);
      assert Names(token, count, v);
    }
  }

  lemma {:induction false} FaceReads(tokens: seq<string>, count: nat)
    ensures ResolveFace(tokens, count).Ok? <==> AllNamed(tokens, count)
    ensures var r := ResolveFace(tokens, count);
            if r.Ok? then |r.value| == |tokens| && forall i :: 0 <= i < |tokens| ==> Names(tokens[i], count, r.value[i])
            else r.error.BadIndex? || r.error.ZeroIndex? || r.error.OutOfRange?
    decreases |tokens|
  {
    if tokens != [] {
      NamedReads(tokens[0], count);
      FaceReads(tokens[1..], count);
      assert forall i :: 0 < i < |tokens| ==> tokens[i] == tokens[1..][i - 1];
      if AllNamed(tokens, count) {
        assert AllNamed(tokens[1..], count);
      }
    }
  }

  lemma {:induction false} FanMeans(face: seq<nat>, j: nat)
    requires j + 2 < |face|
    ensures var fan := Fan(face); fan[3 * j] == face[0] && fan[3 * j + 1] == face[j + 1] && fan[3 * j + 2] == face[j + 2]
    decreases |face|
  {
    if j + 3 < |face| {
      FanMeans(face[..|face| - 1], j);
    }
  }

  lemma FanLands(before: seq<nat>, tokens: seq<string>, count: nat, face: seq<nat>, j: nat)
    requires |face| == |tokens| && j + 2 < |tokens| && forall i :: 0 <= i < |tokens| ==> Names(tokens[i], count, face[i])
    ensures FanAt(tokens, count, before + Fan(face), |before|, j)
  {
    FanMeans(face, j);
    var fan, all := Fan(face), before + Fan(face);
    assert all[|before| + 3 * j] == fan[3 * j] && all[|before| + 3 * j + 1] == fan[3 * j + 1] && all[|before| + 3 * j + 2] == fan[3 * j + 2];
  }

  lemma FanIsAdded<F>(m: MeshOf<F>, tokens: seq<string>, face: seq<nat>)
    requires |face| == |tokens| >= 3 && forall i :: 0 <= i < |tokens| ==> Names(tokens[i], |m.positions|, face[i])
    ensures FanAdded(m, tokens, m.(indices := m.indices + Fan(face)))
  {
    hide Fan, Names;
    forall j | 0 <= j < |tokens| - 2
      ensures FanAt(tokens, |m.positions|, m.indices + Fan(face), |m.indices|, j)
    {
      FanLands(m.indices, tokens, |m.positions|, face, j);
    }
  }

  lemma FaceIsRead<F>(m: MeshOf<F>, tokens: seq<string>)
    ensures FaceDoes(m, tokens, AddFace(m, tokens))
  {
    hide FanAdded, ResolveFace, AllNamed, Names, Fan;
    FaceReads(tokens, |m.positions|);
    var face := ResolveFace(tokens, |m.positions|);
    if face.Ok? && |tokens| >= 3 {
      FanIsAdded(m, tokens, face.value);
    }
  }

  lemma FirstWordStarts(line: string)
    requires line != "" && !IsSpace(line[0])
    ensures Tokens(line) != [] && Tokens(line)[0] != "" && Tokens(line)[0][0] == line[0]
  {
  }

  lemma LineIsRead<F>(ft: FloatText<F>, m: MeshOf<F>, raw: string)
    ensures LineDoes(ft, m, WordsOf(raw), ReadLine(ft, m, raw))
  {
    var line, words := Trim(raw), WordsOf(raw);
    TrimMeans(raw);
    if line == "" {
      assert words == [];
    } else {
      FirstWordStarts(line);
      assert "#" <= words[0] <==> words[0][0] == '#';
      if line[0] != '#' && words[0] == "f" {
        FaceIsRead(m, words[1..]);
      }
    }
  }

  // ----- files -------------------------------------------------------------------------------

  /** Lines are what stands between line breaks; one at the very end begins no line. */
  lemma LinesMean(text: string)
    ensures Glued(Lines(text), '\n') == text || Glued(Lines(text) + [""], '\n') == text
    ensures forall i :: 0 <= i < |Lines(text)| ==> '\n' !in Lines(text)[i]
    ensures Lines(text) != [] && Lines(text)[|Lines(text)| - 1] == "" ==> Glued(Lines(text) + [""], '\n') == text
  {
    hide Split, Glued;
    SplitMeans(text, '\n');
    var parts := Split(text, '\n');
    if parts[|parts| - 1] == "" {
      assert parts[..|parts| - 1] + [""] == parts;
    }
  }

  /** The meshes read so far, one more for each line. */
  ghost predicate Reading<F>(ft: FloatText<F>, lines: seq<string>, meshes: seq<MeshOf<F>>) {
    && 1 <= |meshes| <= |lines| + 1
    && forall k :: 0 <= k < |meshes| - 1 ==> LineDoes(ft, meshes[k], WordsOf(lines[k]), Ok(meshes[k + 1]))
  }

  /** It ends with the last line, or at the first one with a problem, which is counted from one. */
  ghost predicate Ends<F>(ft: FloatText<F>, lines: seq<string>, meshes: seq<MeshOf<F>>, number: nat, r: Result<MeshOf<F>, ObjError>)
    requires 1 <= |meshes| <= |lines| + 1
  {
    var last, n := meshes[|meshes| - 1], |meshes| - 1;
    if n == |lines| then r == Ok(last)
    else r.Err? && LineDoes(ft, last, WordsOf(lines[n]), Err(r.error.problem))
         && r.error.line == if r.error.problem.TooManyTriangles? then 0 else number + n
  }

  lemma {:induction false} LinesAreRead<F>(ft: FloatText<F>, m: MeshOf<F>, lines: seq<string>, number: nat)
      returns (meshes: seq<MeshOf<F>>)
    ensures Reading(ft, lines, meshes) && meshes[0] == m && Ends(ft, lines, meshes, number, ReadLines(ft, m, lines, number))
    decreases |lines|
  {
    meshes := [m];
    if lines != [] {
      var next := ReadLine(ft, m, lines[0]);
      LineIsRead(ft, m, lines[0]);
      if next.Ok? {
        var later := LinesAreRead(ft, next.value, lines[1..], number + 1);
        meshes := [m] + later;
        OneLineMore(ft, m, lines, later);
        assert meshes[|meshes| - 1] == later[|later| - 1];
      }
    }
  }

  lemma OneLineMore<F>(ft: FloatText<F>, m: MeshOf<F>, lines: seq<string>, later: seq<MeshOf<F>>)
    requires lines != [] && Reading(ft, lines[1..], later) && LineDoes(ft, m, WordsOf(lines[0]), Ok(later[0]))
    ensures Reading(ft, lines, [m] + later)
  {
    var all := [m] + later;
    forall k | 0 <= k < |all| - 1
      ensures LineDoes(ft, all[k], WordsOf(lines[k]), Ok(all[k + 1]))
    {
      if k > 0 {
        assert all[k] == later[k - 1] && all[k + 1] == later[k] && lines[k] == lines[1..][k - 1];
      }
    }
  }

  /** What reading a file comes to. */
  ghost predicate FileDoes<F(!new)>(ft: FloatText<F>, text: string, r: Result<MeshOf<F>, ObjError>) {
    exists meshes :: FileReads(ft, Lines(text), meshes, r)
  }

  /** From the empty mesh to the last line; a file without a triangle is refused. */
  ghost predicate FileReads<F>(ft: FloatText<F>, lines: seq<string>, meshes: seq<MeshOf<F>>, r: Result<MeshOf<F>, ObjError>) {
    && Reading(ft, lines, meshes) && meshes[0] == Stl.Mesh([], [])
    && var last := meshes[|meshes| - 1];
       if |meshes| == |lines| + 1 then r == if |last.indices| >= 3 then Ok(last) else Err(ObjError(0, NoTriangles))
       else Ends(ft, lines, meshes, 1, r)
  }

  /** The reader reads the file line by line, each doing what its words say. */
  lemma FileIsRead<F(!new)>(ft: FloatText<F>, text: string)
    ensures FileDoes(ft, text, ParseObj(ft, text))
  {
    var meshes := LinesAreRead(ft, Stl.Mesh([], []), Lines(text), 1);
    assert FileReads(ft, Lines(text), meshes, ParseObj(ft, text));
  }
}
