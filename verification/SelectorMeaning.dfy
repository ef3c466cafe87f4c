/**
 What a selector denotes, as a set defined over bags of faces and edges, and the proof that
 resolution computes it and fails exactly when it should.
 */
module SelectorMeaning {
  import opened Prelude
  import opened TopologySelector

  /** A view without the order its faces and edges are listed in. */
  datatype Bags = Bags(faces: multiset<Face>, edges: multiset<Edge>)

  function BagsOf(view: View): Bags {
    Bags(multiset(view.faces), multiset(view.edges))
  }

  /** How far a point lies along a direction. */
  function Along(p: Vec3, d: Vec3): real {
    p.x * d.x + p.y * d.y + p.z * d.z
  }

  function Middle(a: Vec3, b: Vec3): Vec3 {
    Vec3((a.x + b.x) / 2.0, (a.y + b.y) / 2.0, (a.z + b.z) / 2.0)
  }

  /** A millionth of a millimetre decides a tie. */
  predicate Within(best: real, x: real) {
    best - x <= 0.000001
  }

  ghost predicate InPool(geo: Geometry, pool: Option<Vec3>, f: Face) {
    pool.Some? ==> f.normal.Some? && geo.aligned(f.normal.value, pool.value)
  }

  /** No candidate lies farther along `d` than `f` by more than the tolerance. */
  ghost predicate Farthest(geo: Geometry, faces: multiset<Face>, pool: Option<Vec3>, d: Vec3, f: Face) {
    && f in faces && InPool(geo, pool, f)
    && forall g :: g in faces && InPool(geo, pool, g) ==> Within(Along(g.center, d), Along(f.center, d))
  }

  ghost predicate Tie(geo: Geometry, faces: multiset<Face>, pool: Option<Vec3>, d: Vec3) {
    exists f, g :: Farthest(geo, faces, pool, d, f) && Farthest(geo, faces, pool, d, g) && (f != g || faces[f] > 1)
  }

  ghost function FarthestIds(geo: Geometry, faces: multiset<Face>, pool: Option<Vec3>, d: Vec3): set<nat> {
    set f | f in faces && Farthest(geo, faces, pool, d, f) :: f.id
  }

  ghost function FaceIdsIn(b: Bags): set<nat> {
    set f | f in b.faces :: f.id
  }

  ghost function EdgeIdsIn(b: Bags): set<nat> {
    set e | e in b.edges :: e.id
  }

  ghost predicate FarthestEdge(edges: multiset<Edge>, d: Vec3, e: Edge) {
    e in edges && forall o :: o in edges ==> Within(Along(Middle(o.start, o.end), d), Along(Middle(e.start, e.end), d))
  }

  /** The elements a selector stands for. */
  ghost function Denotes(geo: Geometry, b: Bags, sel: Selector): set<nat>
    decreases sel
  {
    match sel
    case AllFaces => FaceIdsIn(b)
    case FaceIds(ids) => set id | id in ids
    case FacesNormalTo(dir) =>
      set f | f in b.faces && geo.unit(dir).Some? && f.normal.Some? && geo.aligned(f.normal.value, geo.unit(dir).value) :: f.id
    case FacesAxisTo(dir) =>
      set f | f in b.faces && geo.unit(dir).Some? && f.axis.Some? && geo.parallel(f.axis.value, geo.unit(dir).value) :: f.id
    case FacesOfKind(kind) => set f | f in b.faces && f.surface == kind :: f.id
    case FaceExtreme(dir) => if geo.unit(dir).Some? then FarthestIds(geo, b.faces, None, geo.unit(dir).value) else {}
    case TopFace => FarthestIds(geo, b.faces, Some(Vec3(0.0, 0.0, 1.0)), Vec3(0.0, 0.0, 1.0))
    case BottomFace => FarthestIds(geo, b.faces, Some(Vec3(0.0, 0.0, -1.0)), Vec3(0.0, 0.0, -1.0))
    case AllEdges => EdgeIdsIn(b)
    case EdgeIds(ids) => set id | id in ids
    case EdgesAdjacentTo(faces) =>
      set f, id | f in b.faces && f.id in Denotes(geo, b, faces) && id in f.edgeIds && id in EdgeIdsIn(b) :: id
    case EdgesExtreme(dir) =>
      set e | e in b.edges && geo.unit(dir).Some? && FarthestEdge(b.edges, geo.unit(dir).value, e) :: e.id
    case Union(of) => set i, x | 0 <= i < |of| && x in Denotes(geo, b, of[i]) :: x
    case Intersect(of) =>
      if of == [] then {} else
        set x | x in Denotes(geo, b, of[0]) && forall i :: 0 <= i < |of| ==> x in Denotes(geo, b, of[i])
    case Difference(base, minus) => Denotes(geo, b, base) - Denotes(geo, b, minus)
  }

  /** A stale id, an unusable direction or a tie, here or in any operand. */
  ghost predicate Fails(geo: Geometry, b: Bags, sel: Selector)
    decreases sel
  {
    match sel
    case FaceIds(ids) => exists i :: 0 <= i < |ids| && ids[i] !in FaceIdsIn(b)
    case EdgeIds(ids) => exists i :: 0 <= i < |ids| && ids[i] !in EdgeIdsIn(b)
    case FacesNormalTo(dir) => geo.unit(dir).None?
    case FacesAxisTo(dir) => geo.unit(dir).None?
    case EdgesExtreme(dir) => geo.unit(dir).None?
    case FaceExtreme(dir) => geo.unit(dir).None? || Tie(geo, b.faces, None, geo.unit(dir).value)
    case TopFace => Tie(geo, b.faces, Some(Vec3(0.0, 0.0, 1.0)), Vec3(0.0, 0.0, 1.0))
    case BottomFace => Tie(geo, b.faces, Some(Vec3(0.0, 0.0, -1.0)), Vec3(0.0, 0.0, -1.0))
    case EdgesAdjacentTo(faces) => Fails(geo, b, faces)
    case Union(of) => exists i :: 0 <= i < |of| && Fails(geo, b, of[i])
    case Intersect(of) => exists i :: 0 <= i < |of| && Fails(geo, b, of[i])
    case Difference(base, minus) => Fails(geo, b, base) || Fails(geo, b, minus)
    case _ => false
  }

  // ----- the extreme face --------------------------------------------------------------------

  ghost predicate IsTied(f: Face, d: Vec3, best: real) {
    Within(best, Along(f.center, d))
  }

  lemma {:induction false} TiedIds(faces: seq<Face>, d: Vec3, best: real)
    ensures (set id | id in Tied(faces, d, best)) == set f | f in faces && IsTied(f, d, best) :: f.id
    decreases |faces|
  {
    if faces != [] {
      TiedIds(faces[1..], d, best);
      var rest := set f | f in faces[1..] && IsTied(f, d, best) :: f.id;
      var all := set f | f in faces && IsTied(f, d, best) :: f.id;
      assert faces == [faces[0]] + faces[1..];
      assert all == rest + (if IsTied(faces[0], d, best) then {faces[0].id} else {});
    }
  }

  ghost predicate TiedPair(faces: seq<Face>, d: Vec3, best: real) {
    exists i, j :: 0 <= i < j < |faces| && IsTied(faces[i], d, best) && IsTied(faces[j], d, best)
  }

  lemma {:induction false} SomeTied(faces: seq<Face>, d: Vec3, best: real)
    ensures Tied(faces, d, best) != [] <==> exists i :: 0 <= i < |faces| && IsTied(faces[i], d, best)
    decreases |faces|
  {
    if faces != [] {
      SomeTied(faces[1..], d, best);
      assert forall i :: 0 < i < |faces| ==> faces[i] == faces[1..][i - 1];
      assert forall i :: 0 <= i < |faces[1..]| ==> faces[1..][i] == faces[i + 1];
    }
  }

  lemma {:induction false} TwoTied(faces: seq<Face>, d: Vec3, best: real)
    ensures |Tied(faces, d, best)| > 1 <==> TiedPair(faces, d, best)
    decreases |faces|
  {
    if faces != [] {
      TwoTied(faces[1..], d, best);
      SomeTied(faces[1..], d, best);
      PairSplits(faces, d, best);
    }
  }

  /** A pair lies behind the head, or the head is one of it. */
  lemma PairSplits(faces: seq<Face>, d: Vec3, best: real)
    requires faces != []
    ensures TiedPair(faces, d, best) <==>
      TiedPair(faces[1..], d, best) || (IsTied(faces[0], d, best) && exists i :: 0 <= i < |faces[1..]| && IsTied(faces[1..][i], d, best))
  {
    var rest := faces[1..];
    if i, j :| 0 <= i < j < |rest| && IsTied(rest[i], d, best) && IsTied(rest[j], d, best) {
      assert rest[i] == faces[i + 1] && rest[j] == faces[j + 1];
    }
    if j :| 0 <= j < |rest| && IsTied(rest[j], d, best) {
      assert rest[j] == faces[j + 1];
    }
    if i, j :| 0 <= i < j < |faces| && IsTied(faces[i], d, best) && IsTied(faces[j], d, best) {
      assert faces[j] == rest[j - 1];
      if i > 0 {
        assert faces[i] == rest[i - 1];
      }
    }
  }

  /** Two tied faces, or one that is listed twice. */
  ghost predicate TiedInBag(faces: seq<Face>, d: Vec3, best: real) {
    exists f, g :: f in faces && g in faces && IsTied(f, d, best) && IsTied(g, d, best) && (f != g || multiset(faces)[f] > 1)
  }

  lemma TwoPositions(faces: seq<Face>, i: nat, j: nat)
    requires i < j < |faces|
    ensures faces[i] != faces[j] || multiset(faces)[faces[i]] > 1
  {
    assert faces == faces[..j] + faces[j..];
    assert faces[..j][i] == faces[i] && faces[j..][0] == faces[j];
    assert faces[i] in multiset(faces[..j]) && faces[j] in multiset(faces[j..]);
  }

  lemma PairThenBag(faces: seq<Face>, d: Vec3, best: real)
    requires TiedPair(faces, d, best)
    ensures TiedInBag(faces, d, best)
  {
    var i, j :| 0 <= i < j < |faces| && IsTied(faces[i], d, best) && IsTied(faces[j], d, best);
    TwoPositions(faces, i, j);
  }

  lemma BagThenPair(faces: seq<Face>, d: Vec3, best: real)
    requires TiedInBag(faces, d, best)
    ensures TiedPair(faces, d, best)
  {
    var f, g :| f in faces && g in faces && IsTied(f, d, best) && IsTied(g, d, best) && (f != g || multiset(faces)[f] > 1);
    var i :| 0 <= i < |faces| && faces[i] == f;
    if f != g {
      var j :| 0 <= j < |faces| && faces[j] == g;
      assert i < j || j < i;
    } else {
      OtherPosition(faces, i);
      var j :| 0 <= j < |faces| && j != i && faces[j] == faces[i];
      assert i < j || j < i;
    }
  }

  lemma OtherPosition(faces: seq<Face>, i: nat)
    requires i < |faces| && multiset(faces)[faces[i]] > 1
    ensures exists j :: 0 <= j < |faces| && j != i && faces[j] == faces[i]
  {
    var before, after := faces[..i], faces[i + 1..];
    assert faces == before + [faces[i]] + after;
    assert faces[i] in multiset(before) + multiset(after);
    if faces[i] in before {
      var j :| 0 <= j < |before| && before[j] == faces[i];
      assert faces[j] == faces[i];
    } else {
      assert faces[i] in after;
      var j :| 0 <= j < |after| && after[j] == faces[i];
      assert faces[i + 1 + j] == faces[i];
    }
  }

  /** Within tolerance of the best score is within tolerance of every score. */
  lemma TiedIsFarthest(geo: Geometry, faces: seq<Face>, d: Vec3, f: Face)
    requires f in faces && Best(FaceScores(faces, d)).Some?
    ensures IsTied(f, d, Best(FaceScores(faces, d)).value) <==> Farthest(geo, multiset(faces), None, d, f)
  {
    var scores := FaceScores(faces, d);
    var best := Best(scores).value;
    var k :| 0 <= k < |scores| && scores[k] == best;
    FaceAlong(faces[k], d);
    assert faces[k] in multiset(faces) && Along(faces[k].center, d) == best;
    forall g | g in faces
      ensures Along(g.center, d) <= best
    {
      var i :| 0 <= i < |faces| && faces[i] == g;
      FaceAlong(g, d);
      assert scores[i] == FaceScore(g, d);
    }
    BestDecides(geo, faces, d, f, faces[k], best);
  }

  lemma FaceAlong(f: Face, d: Vec3)
    ensures FaceScore(f, d) == Along(f.center, d)
  {
  }

  lemma EdgeAlong(e: Edge, d: Vec3)
    ensures EdgeScore(e, d) == Along(Middle(e.start, e.end), d)
  {
  }

  lemma BestDecides(geo: Geometry, faces: seq<Face>, d: Vec3, f: Face, top: Face, best: real)
    requires f in faces && top in faces && Along(top.center, d) == best && forall g :: g in faces ==> Along(g.center, d) <= best
    ensures IsTied(f, d, best) <==> Farthest(geo, multiset(faces), None, d, f)
  {
    assert top in multiset(faces);
    forall g | g in multiset(faces)
      ensures g in faces
    {
    }
  }

  lemma ExtremeMeaning(geo: Geometry, faces: seq<Face>, d: Vec3)
    ensures var r := Extreme(faces, d);
            && (r.Ok? <==> !Tie(geo, multiset(faces), None, d))
            && (r.Ok? ==> r.value == FarthestIds(geo, multiset(faces), None, d))
            && (r.Err? ==> r.error.Ambiguous?)
  {
    var scores := FaceScores(faces, d);
    if faces != [] {
      var best := Best(scores).value;
      TwoTied(faces, d, best);
      if TiedPair(faces, d, best) {
        PairThenBag(faces, d, best);
      }
      if TiedInBag(faces, d, best) {
        BagThenPair(faces, d, best);
      }
      TiedIds(faces, d, best);
      forall f | f in faces
        ensures IsTied(f, d, best) <==> Farthest(geo, multiset(faces), None, d, f)
      {
        TiedIsFarthest(geo, faces, d, f);
      }
      TiedAreFarthest(geo, faces, d, best);
      TieFound(geo, faces, d, best);
    }
  }

  lemma TiedAreFarthest(geo: Geometry, faces: seq<Face>, d: Vec3, best: real)
    requires forall f :: f in faces ==> (IsTied(f, d, best) <==> Farthest(geo, multiset(faces), None, d, f))
    ensures (set f | f in faces && IsTied(f, d, best) :: f.id) == FarthestIds(geo, multiset(faces), None, d)
  {
  }

  lemma TieFound(geo: Geometry, faces: seq<Face>, d: Vec3, best: real)
    requires forall f :: f in faces ==> (IsTied(f, d, best) <==> Farthest(geo, multiset(faces), None, d, f))
    ensures Tie(geo, multiset(faces), None, d) <==> TiedInBag(faces, d, best)
  {
    var bag := multiset(faces);
    if TiedInBag(faces, d, best) {
      var f, g :| f in faces && g in faces && IsTied(f, d, best) && IsTied(g, d, best) && (f != g || bag[f] > 1);
      TieOf(geo, bag, d, f, g);
    }
    if Tie(geo, bag, None, d) {
      var f, g :| Farthest(geo, bag, None, d, f) && Farthest(geo, bag, None, d, g) && (f != g || bag[f] > 1);
      FarthestListed(geo, faces, d, f);
      FarthestListed(geo, faces, d, g);
      assert IsTied(f, d, best) && IsTied(g, d, best);
    }
  }

  lemma TieOf(geo: Geometry, bag: multiset<Face>, d: Vec3, f: Face, g: Face)
    requires Farthest(geo, bag, None, d, f) && Farthest(geo, bag, None, d, g) && (f != g || bag[f] > 1)
    ensures Tie(geo, bag, None, d)
  {
  }

  lemma FarthestListed(geo: Geometry, faces: seq<Face>, d: Vec3, f: Face)
    requires Farthest(geo, multiset(faces), None, d, f)
    ensures f in faces
  {
  }

  // ----- the candidates of top_face and bottom_face ---------------------------------------------------

  lemma {:induction false} UpwardCount(geo: Geometry, faces: seq<Face>, d: Vec3, f: Face)
    ensures multiset(UpwardFaces(geo, faces, d))[f] == if Upward(geo, f, d) then multiset(faces)[f] else 0
    decreases |faces|
  {
    if faces != [] {
      assert faces == [faces[0]] + faces[1..];
      UpwardCount(geo, faces[1..], d, f);
    }
  }

  lemma UpwardFarthest(geo: Geometry, faces: seq<Face>, d: Vec3, f: Face)
    ensures Farthest(geo, multiset(UpwardFaces(geo, faces, d)), None, d, f) <==> Farthest(geo, multiset(faces), Some(d), d, f)
  {
    var pool := multiset(UpwardFaces(geo, faces, d));
    forall g: Face
      ensures g in pool <==> g in multiset(faces) && InPool(geo, Some(d), g)
    {
      UpwardCount(geo, faces, d, g);
    }
  }

  lemma SameFarthest(geo: Geometry, a: multiset<Face>, b: multiset<Face>, poolB: Option<Vec3>, d: Vec3)
    requires forall f :: Farthest(geo, a, None, d, f) <==> Farthest(geo, b, poolB, d, f)
    requires forall f :: Farthest(geo, a, None, d, f) ==> a[f] == b[f]
    ensures Tie(geo, a, None, d) <==> Tie(geo, b, poolB, d)
    ensures FarthestIds(geo, a, None, d) == FarthestIds(geo, b, poolB, d)
  {
    if f, g :| Farthest(geo, a, None, d, f) && Farthest(geo, a, None, d, g) && (f != g || a[f] > 1) {
      assert Farthest(geo, b, poolB, d, f) && Farthest(geo, b, poolB, d, g);
    }
    if f, g :| Farthest(geo, b, poolB, d, f) && Farthest(geo, b, poolB, d, g) && (f != g || b[f] > 1) {
      assert Farthest(geo, a, None, d, f) && Farthest(geo, a, None, d, g);
    }
  }

  lemma UpwardTie(geo: Geometry, faces: seq<Face>, d: Vec3)
    ensures Tie(geo, multiset(UpwardFaces(geo, faces, d)), None, d) <==> Tie(geo, multiset(faces), Some(d), d)
    ensures FarthestIds(geo, multiset(UpwardFaces(geo, faces, d)), None, d) == FarthestIds(geo, multiset(faces), Some(d), d)
  {
    var pool := multiset(UpwardFaces(geo, faces, d));
    forall f: Face
      ensures Farthest(geo, pool, None, d, f) <==> Farthest(geo, multiset(faces), Some(d), d, f)
    {
      UpwardFarthest(geo, faces, d, f);
    }
    forall f: Face
      ensures Farthest(geo, pool, None, d, f) ==> pool[f] == multiset(faces)[f]
    {
      UpwardCount(geo, faces, d, f);
    }
    SameFarthest(geo, pool, multiset(faces), Some(d), d);
  }

  // ----- leaves ------------------------------------------------------------------------------------------

  lemma {:induction false} MissingNone(ids: seq<nat>, universe: set<nat>)
    ensures Missing(ids, universe) == [] <==> forall i :: 0 <= i < |ids| ==> ids[i] in universe
    decreases |ids|
  {
    if ids != [] {
      MissingNone(ids[1..], universe);
      assert forall i :: 0 < i < |ids| ==> ids[i] == ids[1..][i - 1];
      assert forall i :: 0 <= i < |ids[1..]| ==> ids[1..][i] == ids[i + 1];
    }
  }

  lemma Universes(view: View)
    ensures FaceUniverse(view) == FaceIdsIn(BagsOf(view)) && EdgeUniverse(view) == EdgeIdsIn(BagsOf(view))
  {
  }

  lemma ExtremeEdgesMeaning(edges: seq<Edge>, d: Vec3)
    ensures ExtremeEdges(edges, d) == set e | e in multiset(edges) && FarthestEdge(multiset(edges), d, e) :: e.id
  {
    if edges != [] {
      var scores := EdgeScores(edges, d);
      var best := Best(scores).value;
      var k :| 0 <= k < |scores| && scores[k] == best;
      EdgeAlong(edges[k], d);
      forall e | e in edges
        ensures Along(Middle(e.start, e.end), d) <= best && EdgeScore(e, d) == Along(Middle(e.start, e.end), d)
      {
        var i :| 0 <= i < |edges| && edges[i] == e;
        EdgeAlong(e, d);
        assert scores[i] == EdgeScore(e, d);
      }
      forall e | e in edges
        ensures best - EdgeScore(e, d) <= LINEAR_TOLERANCE_MM <==> FarthestEdge(multiset(edges), d, e)
      {
        BestEdgeDecides(edges, d, e, edges[k], best);
      }
    }
  }

  lemma BestEdgeDecides(edges: seq<Edge>, d: Vec3, e: Edge, top: Edge, best: real)
    requires e in edges && top in edges && Along(Middle(top.start, top.end), d) == best
    requires forall o :: o in edges ==> Along(Middle(o.start, o.end), d) <= best
    ensures Within(best, Along(Middle(e.start, e.end), d)) <==> FarthestEdge(multiset(edges), d, e)
  {
    assert top in multiset(edges);
    forall o | o in multiset(edges)
      ensures o in edges
    {
    }
  }

  // ----- faces ---------------------------------------------------------------------------------------------

  /** Neither a kind mismatch nor the panic of an operator without operands. */
  predicate Clean(r: Ids) {
    r.Err? ==> !r.error.WrongKind? && !r.error.Panicked?
  }

  ghost predicate Means(geo: Geometry, b: Bags, sel: Selector, r: Ids) {
    && Clean(r)
    && (r.Ok? <==> !Fails(geo, b, sel))
    && (r.Ok? ==> r.value == Denotes(geo, b, sel))
  }

  lemma {:induction false} FacesMeaning(geo: Geometry, view: View, sel: Selector)
    requires HasKind(sel, FaceTarget)
    ensures Means(geo, BagsOf(view), sel, FacesOf(geo, view, sel))
    decreases sel
  {
    match sel
    case Union(of) => FaceUnionMeaning(geo, view, of, {});
    case Intersect(of) =>
      FacesMeaning(geo, view, of[0]);
      if FacesOf(geo, view, of[0]).Ok? {
        FaceIntersectionMeaning(geo, view, of[1..], FacesOf(geo, view, of[0]).value);
      }
      IntersectSplits(geo, BagsOf(view), of);
    case Difference(base, minus) =>
      FacesMeaning(geo, view, base);
      FacesMeaning(geo, view, minus);
    case _ => FaceLeafMeaning(geo, view, sel);
  }

  lemma FaceLeafMeaning(geo: Geometry, view: View, sel: Selector)
    requires HasKind(sel, FaceTarget) && !sel.Union? && !sel.Intersect? && !sel.Difference?
    ensures Means(geo, BagsOf(view), sel, FacesOf(geo, view, sel))
  {
    Universes(view);
    match sel
    case FaceIds(ids) => MissingNone(ids, FaceUniverse(view));
    case FaceExtreme(dir) =>
      if geo.unit(dir).Some? {
        ExtremeMeaning(geo, view.faces, geo.unit(dir).value);
      }
    case TopFace =>
      ExtremeMeaning(geo, UpwardFaces(geo, view.faces, UP), UP);
      UpwardTie(geo, view.faces, UP);
    case BottomFace =>
      ExtremeMeaning(geo, UpwardFaces(geo, view.faces, DOWN), DOWN);
      UpwardTie(geo, view.faces, DOWN);
    case _ =>
  }

  ghost predicate AnyFails(geo: Geometry, b: Bags, of: seq<Selector>) {
    exists i :: 0 <= i < |of| && Fails(geo, b, of[i])
  }

  ghost function UnionOf(geo: Geometry, b: Bags, of: seq<Selector>): set<nat> {
    set i, x | 0 <= i < |of| && x in Denotes(geo, b, of[i]) :: x
  }

  ghost predicate InAll(geo: Geometry, b: Bags, of: seq<Selector>, x: nat) {
    forall i :: 0 <= i < |of| ==> x in Denotes(geo, b, of[i])
  }

  lemma AnyFailsSplits(geo: Geometry, b: Bags, of: seq<Selector>)
    requires of != []
    ensures AnyFails(geo, b, of) <==> Fails(geo, b, of[0]) || AnyFails(geo, b, of[1..])
    ensures UnionOf(geo, b, of) == Denotes(geo, b, of[0]) + UnionOf(geo, b, of[1..])
    ensures forall x :: InAll(geo, b, of, x) <==> x in Denotes(geo, b, of[0]) && InAll(geo, b, of[1..], x)
  {
    var rest := of[1..];
    assert forall i :: 0 < i < |of| ==> of[i] == rest[i - 1];
    assert forall i :: 0 <= i < |rest| ==> rest[i] == of[i + 1];
  }

  lemma IntersectSplits(geo: Geometry, b: Bags, of: seq<Selector>)
    requires of != []
    ensures Denotes(geo, b, Intersect(of)) == set x | x in Denotes(geo, b, of[0]) && InAll(geo, b, of[1..], x)
    ensures Fails(geo, b, Intersect(of)) <==> Fails(geo, b, of[0]) || AnyFails(geo, b, of[1..])
  {
    AnyFailsSplits(geo, b, of);
    assert Denotes(geo, b, Intersect(of)) == set x | x in Denotes(geo, b, of[0]) && InAll(geo, b, of, x);
  }

  lemma {:induction false} FaceUnionMeaning(geo: Geometry, view: View, of: seq<Selector>, acc: set<nat>)
    requires forall i :: 0 <= i < |of| ==> HasKind(of[i], FaceTarget)
    ensures var r := FacesUnion(geo, view, of, acc);
            && Clean(r) && (r.Ok? <==> !AnyFails(geo, BagsOf(view), of))
            && (r.Ok? ==> r.value == acc + UnionOf(geo, BagsOf(view), of))
    decreases of
  {
    if of != [] {
      FacesMeaning(geo, view, of[0]);
      AnyFailsSplits(geo, BagsOf(view), of);
      var s := FacesOf(geo, view, of[0]);
      if s.Ok? {
        FaceUnionMeaning(geo, view, of[1..], acc + s.value);
      }
    }
  }

  lemma {:induction false} FaceIntersectionMeaning(geo: Geometry, view: View, of: seq<Selector>, acc: set<nat>)
    requires forall i :: 0 <= i < |of| ==> HasKind(of[i], FaceTarget)
    ensures var r := FacesIntersection(geo, view, of, acc);
            && Clean(r) && (r.Ok? <==> !AnyFails(geo, BagsOf(view), of))
            && (r.Ok? ==> r.value == set x | x in acc && InAll(geo, BagsOf(view), of, x))
    decreases of
  {
    if of != [] {
      FacesMeaning(geo, view, of[0]);
      AnyFailsSplits(geo, BagsOf(view), of);
      var s := FacesOf(geo, view, of[0]);
      if s.Ok? {
        FaceIntersectionMeaning(geo, view, of[1..], acc * s.value);
      }
    }
  }

  // ----- edges ---------------------------------------------------------------------------------------------

  lemma {:induction false} EdgesMeaning(geo: Geometry, view: View, sel: Selector)
    requires HasKind(sel, EdgeTarget)
    ensures Means(geo, BagsOf(view), sel, EdgesOf(geo, view, sel))
    decreases sel
  {
    match sel
    case Union(of) => EdgeUnionMeaning(geo, view, of, {});
    case Intersect(of) =>
      EdgesMeaning(geo, view, of[0]);
      if EdgesOf(geo, view, of[0]).Ok? {
        EdgeIntersectionMeaning(geo, view, of[1..], EdgesOf(geo, view, of[0]).value);
      }
      IntersectSplits(geo, BagsOf(view), of);
    case Difference(base, minus) =>
      EdgesMeaning(geo, view, base);
      EdgesMeaning(geo, view, minus);
    case EdgesAdjacentTo(faces) =>
      FacesMeaning(geo, view, faces);
      Universes(view);
    case EdgesExtreme(dir) =>
      if geo.unit(dir).Some? {
        ExtremeEdgesMeaning(view.edges, geo.unit(dir).value);
      }
    case EdgeIds(ids) =>
      Universes(view);
      MissingNone(ids, EdgeUniverse(view));
    case _ => Universes(view);
  }

  lemma {:induction false} EdgeUnionMeaning(geo: Geometry, view: View, of: seq<Selector>, acc: set<nat>)
    requires forall i :: 0 <= i < |of| ==> HasKind(of[i], EdgeTarget)
    ensures var r := EdgesUnion(geo, view, of, acc);
            && Clean(r) && (r.Ok? <==> !AnyFails(geo, BagsOf(view), of))
            && (r.Ok? ==> r.value == acc + UnionOf(geo, BagsOf(view), of))
    decreases of
  {
    if of != [] {
      EdgesMeaning(geo, view, of[0]);
      AnyFailsSplits(geo, BagsOf(view), of);
      var s := EdgesOf(geo, view, of[0]);
      if s.Ok? {
        EdgeUnionMeaning(geo, view, of[1..], acc + s.value);
      }
    }
  }

  lemma {:induction false} EdgeIntersectionMeaning(geo: Geometry, view: View, of: seq<Selector>, acc: set<nat>)
    requires forall i :: 0 <= i < |of| ==> HasKind(of[i], EdgeTarget)
    ensures var r := EdgesIntersection(geo, view, of, acc);
            && Clean(r) && (r.Ok? <==> !AnyFails(geo, BagsOf(view), of))
            && (r.Ok? ==> r.value == set x | x in acc && InAll(geo, BagsOf(view), of, x))
    decreases of
  {
    if of != [] {
      EdgesMeaning(geo, view, of[0]);
      AnyFailsSplits(geo, BagsOf(view), of);
      var s := EdgesOf(geo, view, of[0]);
      if s.Ok? {
        EdgeIntersectionMeaning(geo, view, of[1..], acc * s.value);
      }
    }
  }

  // ----- the main statements ------------------------------------------------------------------------------

  /**
   A selector that passes the static check resolves without a kind error and without a panic;
   it fails exactly on a stale id, an unusable direction or a tie, and otherwise gives the set
   it denotes.
   */
  lemma ResolutionMeaning(geo: Geometry, view: View, sel: Selector)
    requires TargetOf(sel).Ok?
    ensures Means(geo, BagsOf(view), sel, Resolved(geo, view, sel))
  {
    var t := TargetOf(sel).value;
    TargetIsKind(sel, t);
    if t == FaceTarget {
      FacesMeaning(geo, view, sel);
    } else {
      EdgesMeaning(geo, view, sel);
    }
  }

  /** The order the kernel lists faces and edges in matters neither to the value nor to failure. */
  lemma OrderDoesNotMatter(geo: Geometry, view: View, other: View, sel: Selector)
    requires multiset(view.faces) == multiset(other.faces) && multiset(view.edges) == multiset(other.edges)
    ensures Resolved(geo, view, sel).Ok? <==> Resolved(geo, other, sel).Ok?
    ensures Resolved(geo, view, sel).Ok? ==> Resolved(geo, view, sel).value == Resolved(geo, other, sel).value
  {
    if TargetOf(sel).Ok? {
      ResolutionMeaning(geo, view, sel);
      ResolutionMeaning(geo, other, sel);
    }
  }

  ghost function UniverseOf(b: Bags, t: Target): set<nat> {
    if t == FaceTarget then FaceIdsIn(b) else EdgeIdsIn(b)
  }

  /** Only elements of the selector's kind that the view has are ever selected. */
  lemma {:induction false} DenotesInView(geo: Geometry, b: Bags, sel: Selector, t: Target)
    requires HasKind(sel, t) && !Fails(geo, b, sel)
    ensures Denotes(geo, b, sel) <= UniverseOf(b, t)
    decreases sel
  {
    match sel
    case Union(of) =>
      forall i | 0 <= i < |of|
        ensures Denotes(geo, b, of[i]) <= UniverseOf(b, t)
      {
        DenotesInView(geo, b, of[i], t);
      }
    case Intersect(of) => DenotesInView(geo, b, of[0], t);
    case Difference(base, minus) => DenotesInView(geo, b, base, t);
    case FaceIds(ids) =>
    case EdgeIds(ids) =>
    case _ =>
  }

  lemma ResolvedInView(geo: Geometry, view: View, sel: Selector)
    requires Resolved(geo, view, sel).Ok?
    ensures Resolved(geo, view, sel).value
         <= if TargetOf(sel) == Ok(FaceTarget) then FaceUniverse(view) else EdgeUniverse(view)
  {
    ResolutionMeaning(geo, view, sel);
    TargetIsKind(sel, TargetOf(sel).value);
    DenotesInView(geo, BagsOf(view), sel, TargetOf(sel).value);
    Universes(view);
  }

  // ----- in coordinates ------------------------------------------------------------------------------------

  /** A candidate for `top_face`: its outward normal points up. */
  ghost predicate FacesUp(geo: Geometry, f: Face) {
    f.normal.Some? && geo.aligned(f.normal.value, Vec3(0.0, 0.0, 1.0))
  }

  ghost predicate FacesDown(geo: Geometry, f: Face) {
    f.normal.Some? && geo.aligned(f.normal.value, Vec3(0.0, 0.0, -1.0))
  }

  /** Points up, and no face that does has a center higher by more than the tolerance. */
  ghost predicate Highest(geo: Geometry, faces: seq<Face>, f: Face) {
    FacesUp(geo, f) && forall g :: g in faces && FacesUp(geo, g) ==> g.center.z - f.center.z <= 0.000001
  }

  ghost predicate Lowest(geo: Geometry, faces: seq<Face>, f: Face) {
    FacesDown(geo, f) && forall g :: g in faces && FacesDown(geo, g) ==> f.center.z - g.center.z <= 0.000001
  }

  lemma HighestIsFarthest(geo: Geometry, faces: seq<Face>, f: Face)
    requires f in faces
    ensures Farthest(geo, multiset(faces), Some(Vec3(0.0, 0.0, 1.0)), Vec3(0.0, 0.0, 1.0), f) <==> Highest(geo, faces, f)
  {
    var up := Vec3(0.0, 0.0, 1.0);
    forall g | g in faces
      ensures g in multiset(faces) && Along(g.center, up) == g.center.z
    {
    }
  }

  lemma LowestIsFarthest(geo: Geometry, faces: seq<Face>, f: Face)
    requires f in faces
    ensures Farthest(geo, multiset(faces), Some(Vec3(0.0, 0.0, -1.0)), Vec3(0.0, 0.0, -1.0), f) <==> Lowest(geo, faces, f)
  {
    var down := Vec3(0.0, 0.0, -1.0);
    forall g | g in faces
      ensures g in multiset(faces) && Along(g.center, down) == -g.center.z
    {
    }
  }

  /** `top_face` is the face pointing up whose center has the greatest z, up to the tolerance. */
  lemma TopIsHighest(geo: Geometry, view: View, id: nat)
    requires Resolved(geo, view, TopFace).Ok?
    ensures id in Resolved(geo, view, TopFace).value <==> exists f :: f in view.faces && f.id == id && Highest(geo, view.faces, f)
  {
    ResolutionMeaning(geo, view, TopFace);
    forall f | f in view.faces
      ensures Farthest(geo, multiset(view.faces), Some(Vec3(0.0, 0.0, 1.0)), Vec3(0.0, 0.0, 1.0), f) <==> Highest(geo, view.faces, f)
    {
      HighestIsFarthest(geo, view.faces, f);
    }
  }

  /** `bottom_face` is the face pointing down whose center has the least z. */
  lemma BottomIsLowest(geo: Geometry, view: View, id: nat)
    requires Resolved(geo, view, BottomFace).Ok?
    ensures id in Resolved(geo, view, BottomFace).value <==> exists f :: f in view.faces && f.id == id && Lowest(geo, view.faces, f)
  {
    ResolutionMeaning(geo, view, BottomFace);
    forall f | f in view.faces
      ensures Farthest(geo, multiset(view.faces), Some(Vec3(0.0, 0.0, -1.0)), Vec3(0.0, 0.0, -1.0), f) <==> Lowest(geo, view.faces, f)
    {
      LowestIsFarthest(geo, view.faces, f);
    }
  }

  /** No point of the list lies farther along `d`, written out, by more than the tolerance. */
  ghost predicate Outermost(points: seq<Vec3>, d: Vec3, p: Vec3) {
    forall q :: q in points ==> (q.x * d.x + q.y * d.y + q.z * d.z) - (p.x * d.x + p.y * d.y + p.z * d.z) <= 0.000001
  }

  function Centers(faces: seq<Face>): seq<Vec3> {
    seq(|faces|, i requires 0 <= i < |faces| => faces[i].center)
  }

  function Midpoints(edges: seq<Edge>): seq<Vec3> {
    seq(|edges|, i requires 0 <= i < |edges| => Midpoint(edges[i]))
  }

  function Midpoint(e: Edge): Vec3 {
    Vec3((e.start.x + e.end.x) / 2.0, (e.start.y + e.end.y) / 2.0, (e.start.z + e.end.z) / 2.0)
  }

  lemma OutermostFace(geo: Geometry, faces: seq<Face>, d: Vec3, f: Face)
    requires f in faces
    ensures Farthest(geo, multiset(faces), None, d, f) <==> Outermost(Centers(faces), d, f.center)
  {
    var points := Centers(faces);
    forall q
      ensures q in points <==> exists g :: g in faces && g.center == q
    {
      if q in points {
        var i :| 0 <= i < |points| && points[i] == q;
        assert faces[i] in faces && faces[i].center == q;
      }
      if g :| g in faces && g.center == q {
        var i :| 0 <= i < |faces| && faces[i] == g;
        assert points[i] == q;
      }
    }
    if Farthest(geo, multiset(faces), None, d, f) {
      forall q | q in points
        ensures Within(Along(q, d), Along(f.center, d))
      {
        var g :| g in faces && g.center == q;
        assert g in multiset(faces);
      }
    }
    if Outermost(points, d, f.center) {
      forall g | g in multiset(faces)
        ensures Within(Along(g.center, d), Along(f.center, d))
      {
        assert g in faces && g.center in points;
      }
    }
  }

  lemma OutermostEdge(edges: seq<Edge>, d: Vec3, e: Edge)
    requires e in edges
    ensures FarthestEdge(multiset(edges), d, e) <==> Outermost(Midpoints(edges), d, Midpoint(e))
  {
    var points := Midpoints(edges);
    if FarthestEdge(multiset(edges), d, e) {
      forall q | q in points
        ensures Within(Along(q, d), Along(Midpoint(e), d))
      {
        var i :| 0 <= i < |points| && points[i] == q;
        assert edges[i] in multiset(edges) && Midpoint(edges[i]) == Middle(edges[i].start, edges[i].end);
      }
    }
    if Outermost(points, d, Midpoint(e)) {
      forall o | o in multiset(edges)
        ensures Within(Along(Middle(o.start, o.end), d), Along(Middle(e.start, e.end), d))
      {
        var i :| 0 <= i < |edges| && edges[i] == o;
        assert points[i] == Middle(o.start, o.end);
      }
    }
  }

  /** An extreme face has the outermost center among all faces. */
  lemma ExtremeFaceIsOutermost(geo: Geometry, view: View, dir: Vec3, id: nat)
    requires geo.unit(dir).Some? && Resolved(geo, view, FaceExtreme(dir)).Ok?
    ensures id in Resolved(geo, view, FaceExtreme(dir)).value <==>
      exists f :: f in view.faces && f.id == id && Outermost(Centers(view.faces), geo.unit(dir).value, f.center)
  {
    ResolutionMeaning(geo, view, FaceExtreme(dir));
    forall f | f in view.faces
      ensures Farthest(geo, multiset(view.faces), None, geo.unit(dir).value, f) <==> Outermost(Centers(view.faces), geo.unit(dir).value, f.center)
    {
      OutermostFace(geo, view.faces, geo.unit(dir).value, f);
    }
  }

  /** The extreme edges are those with an outermost midpoint. */
  lemma ExtremeEdgesAreOutermost(geo: Geometry, view: View, dir: Vec3, id: nat)
    requires geo.unit(dir).Some?
    ensures Resolved(geo, view, EdgesExtreme(dir)).Ok?
    ensures id in Resolved(geo, view, EdgesExtreme(dir)).value <==>
      exists e :: e in view.edges && e.id == id && Outermost(Midpoints(view.edges), geo.unit(dir).value, Midpoint(e))
  {
    ResolutionMeaning(geo, view, EdgesExtreme(dir));
    forall e | e in view.edges
      ensures FarthestEdge(multiset(view.edges), geo.unit(dir).value, e) <==> Outermost(Midpoints(view.edges), geo.unit(dir).value, Midpoint(e))
    {
      OutermostEdge(view.edges, geo.unit(dir).value, e);
    }
  }
}
