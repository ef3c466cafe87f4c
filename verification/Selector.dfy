/**
 Topology selectors: a small language of face sets and edge sets, its static kind check, and
 resolution against the faces and edges a kernel reports.
 */
module TopologySelector {
  import opened Prelude

  const LINEAR_TOLERANCE_MM: real := 0.000001

  datatype Surface = Plane | Cylinder | Cone | Sphere | Torus | OtherSurface

  datatype Face = Face(id: nat, surface: Surface, center: Vec3, normal: Option<Vec3>, axis: Option<Vec3>, edgeIds: seq<nat>)

  datatype Edge = Edge(id: nat, start: Vec3, end: Vec3)

  datatype View = View(faces: seq<Face>, edges: seq<Edge>)

  datatype Selector =
    | AllFaces
    | FaceIds(ids: seq<nat>)
    | FacesNormalTo(dir: Vec3)
    | FacesAxisTo(dir: Vec3)
    | FacesOfKind(kind: Surface)
    | FaceExtreme(dir: Vec3)
    | TopFace
    | BottomFace
    | AllEdges
    | EdgeIds(ids: seq<nat>)
    | EdgesAdjacentTo(faces: Selector)
    | EdgesExtreme(dir: Vec3)
    | Union(of: seq<Selector>)
    | Intersect(of: seq<Selector>)
    | Difference(base: Selector, minus: Selector)

  datatype Target = FaceTarget | EdgeTarget

  datatype SelectorError =
    | WrongKind(expected: Target, actual: Option<Target>)
    | NoOperands
    | MixedOperands
    | BadDirection
    | Stale(ids: seq<nat>, target: Target)
    | Ambiguous(ids: seq<nat>)
    | Panicked

  type Ids = Result<set<nat>, SelectorError>

  /** Normalizing a direction, and the two angle tests against a unit direction. */
  datatype Geometry = Geometry(unit: Vec3 -> Option<Vec3>, aligned: (Vec3, Vec3) -> bool, parallel: (Vec3, Vec3) -> bool)

  const UP := Vec3(0.0, 0.0, 1.0)
  const DOWN := Vec3(0.0, 0.0, -1.0)

  function Dot(a: Vec3, b: Vec3): real {
    a.x * b.x + a.y * b.y + a.z * b.z
  }

  function FaceScore(f: Face, d: Vec3): real {
    Dot(f.center, d)
  }

  /** Midpoint of the endpoints, projected on `d`. */
  function EdgeScore(e: Edge, d: Vec3): real {
    Dot(Vec3((e.start.x + e.end.x) / 2.0, (e.start.y + e.end.y) / 2.0, (e.start.z + e.end.z) / 2.0), d)
  }

  // ----- the static check ------------------------------------------------------------------

  function TargetOf(sel: Selector): Result<Target, SelectorError>
    decreases sel
  {
    match sel
    case AllEdges => Ok(EdgeTarget)
    case EdgeIds(_) => Ok(EdgeTarget)
    case EdgesExtreme(_) => Ok(EdgeTarget)
    case EdgesAdjacentTo(faces) =>
      var inner := TargetOf(faces);
      if inner.Err? then inner
      else if inner.value != FaceTarget then Err(WrongKind(FaceTarget, Some(inner.value)))
      else Ok(EdgeTarget)
    case Union(of) => OperandTarget(of)
    case Intersect(of) => OperandTarget(of)
    case Difference(base, minus) =>
      var b := TargetOf(base);
      if b.Err? then b else
        var m := TargetOf(minus);
        if m.Err? then m else if b.value != m.value then Err(MixedOperands) else b
    case _ => Ok(FaceTarget)
  }

  function OperandTarget(of: seq<Selector>): Result<Target, SelectorError>
    decreases of
  {
    if of == [] then Err(NoOperands) else
      var t := TargetOf(of[0]);
      if t.Err? then t else OperandsAgree(of[1..], t.value)
  }

  function OperandsAgree(of: seq<Selector>, t: Target): Result<Target, SelectorError>
    decreases of
  {
    if of == [] then Ok(t) else
      var u := TargetOf(of[0]);
      if u.Err? then u else if u.value != t then Err(MixedOperands) else OperandsAgree(of[1..], t)
  }

  /** What it means to be a selector of one kind. */
  ghost predicate HasKind(sel: Selector, t: Target)
    decreases sel
  {
    match sel
    case AllEdges => t == EdgeTarget
    case EdgeIds(_) => t == EdgeTarget
    case EdgesExtreme(_) => t == EdgeTarget
    case EdgesAdjacentTo(faces) => t == EdgeTarget && HasKind(faces, FaceTarget)
    case Union(of) => of != [] && forall i :: 0 <= i < |of| ==> HasKind(of[i], t)
    case Intersect(of) => of != [] && forall i :: 0 <= i < |of| ==> HasKind(of[i], t)
    case Difference(base, minus) => HasKind(base, t) && HasKind(minus, t)
    case _ => t == FaceTarget
  }

  /** The check accepts exactly the selectors of one kind, and names that kind. */
  lemma {:induction false} TargetIsKind(sel: Selector, t: Target)
    ensures TargetOf(sel) == Ok(t) <==> HasKind(sel, t)
    decreases sel
  {
    match sel
    case EdgesAdjacentTo(faces) => TargetIsKind(faces, FaceTarget);
    case Union(of) => OperandKinds(of, t);
    case Intersect(of) => OperandKinds(of, t);
    case Difference(base, minus) =>
      TargetIsKind(base, t);
      TargetIsKind(minus, t);
    case _ =>
  }

  lemma {:induction false} OperandKinds(of: seq<Selector>, t: Target)
    ensures OperandTarget(of) == Ok(t) <==> of != [] && forall i :: 0 <= i < |of| ==> HasKind(of[i], t)
    decreases of
  {
    if of != [] {
      TargetIsKind(of[0], t);
      AgreeingKinds(of[1..], t);
      AgreeOnOne(of[1..]);
    }
  }

  lemma {:induction false} AgreeingKinds(of: seq<Selector>, t: Target)
    ensures OperandsAgree(of, t) == Ok(t) <==> forall i :: 0 <= i < |of| ==> HasKind(of[i], t)
    decreases of
  {
    if of != [] {
      TargetIsKind(of[0], t);
      AgreeingKinds(of[1..], t);
      assert forall i :: 0 <= i < |of| ==> of[i] == if i == 0 then of[0] else of[1..][i - 1];
    }
  }

  lemma {:induction false} AgreeOnOne(of: seq<Selector>)
    ensures forall t :: OperandsAgree(of, t).Ok? ==> OperandsAgree(of, t).value == t
    decreases of
  {
    if of != [] {
      AgreeOnOne(of[1..]);
    }
  }

  // ----- resolution --------------------------------------------------------------------------

  function FaceUniverse(view: View): set<nat> {
    set f | f in view.faces :: f.id
  }

  function EdgeUniverse(view: View): set<nat> {
    set e | e in view.edges :: e.id
  }

  predicate Upward(geo: Geometry, f: Face, d: Vec3) {
    f.normal.Some? && geo.aligned(f.normal.value, d)
  }

  predicate AxisAlong(geo: Geometry, f: Face, d: Vec3) {
    f.axis.Some? && geo.parallel(f.axis.value, d)
  }

  function Missing(ids: seq<nat>, universe: set<nat>): seq<nat> {
    if ids == [] then []
    else (if ids[0] in universe then [] else [ids[0]]) + Missing(ids[1..], universe)
  }

  function CheckPresent(ids: seq<nat>, universe: set<nat>, target: Target): Ids {
    if Missing(ids, universe) != [] then Err(Stale(Missing(ids, universe), target)) else Ok(set id | id in ids)
  }

  function UpwardFaces(geo: Geometry, faces: seq<Face>, d: Vec3): seq<Face> {
    if faces == [] then []
    else (if Upward(geo, faces[0], d) then [faces[0]] else []) + UpwardFaces(geo, faces[1..], d)
  }

  /** The greatest score; nothing for no candidates. */
  function Best(scores: seq<real>): (b: Option<real>)
    ensures b.None? <==> scores == []
    ensures b.Some? ==> b.value in scores && forall i :: 0 <= i < |scores| ==> scores[i] <= b.value
  {
    if scores == [] then None else
      var rest := Best(scores[1..]);
      assert forall i :: 0 < i < |scores| ==> scores[i] == scores[1..][i - 1];
      if rest.None? || rest.value < scores[0] then Some(scores[0]) else rest
  }

  function FaceScores(faces: seq<Face>, d: Vec3): seq<real> {
    seq(|faces|, i requires 0 <= i < |faces| => FaceScore(faces[i], d))
  }

  function EdgeScores(edges: seq<Edge>, d: Vec3): seq<real> {
    seq(|edges|, i requires 0 <= i < |edges| => EdgeScore(edges[i], d))
  }

  function Tied(faces: seq<Face>, d: Vec3, best: real): seq<nat> {
    if faces == [] then []
    else (if best - FaceScore(faces[0], d) <= LINEAR_TOLERANCE_MM then [faces[0].id] else []) + Tied(faces[1..], d, best)
  }

  function Extreme(faces: seq<Face>, d: Vec3): Ids {
    var best := Best(FaceScores(faces, d));
    if best.None? then Ok({}) else
      var tied := Tied(faces, d, best.value);
      if |tied| > 1 then Err(Ambiguous(tied)) else Ok(set id | id in tied)
  }

  function ExtremeEdges(edges: seq<Edge>, d: Vec3): set<nat> {
    var best := Best(EdgeScores(edges, d));
    if best.None? then {}
    else set e | e in edges && best.value - EdgeScore(e, d) <= LINEAR_TOLERANCE_MM :: e.id
  }

  function BoundingEdges(view: View, matched: set<nat>): set<nat> {
    set f, id | f in view.faces && f.id in matched && id in f.edgeIds && id in EdgeUniverse(view) :: id
  }

  function FacesOf(geo: Geometry, view: View, sel: Selector): Ids
    decreases sel
  {
    match sel
    case AllFaces => Ok(FaceUniverse(view))
    case FaceIds(ids) => CheckPresent(ids, FaceUniverse(view), FaceTarget)
    case FacesNormalTo(dir) =>
      var d := geo.unit(dir);
      if d.None? then Err(BadDirection) else Ok(set f | f in view.faces && Upward(geo, f, d.value) :: f.id)
    case FacesAxisTo(dir) =>
      var d := geo.unit(dir);
      if d.None? then Err(BadDirection) else Ok(set f | f in view.faces && AxisAlong(geo, f, d.value) :: f.id)
    case FacesOfKind(kind) => Ok(set f | f in view.faces && f.surface == kind :: f.id)
    case FaceExtreme(dir) =>
      var d := geo.unit(dir);
      if d.None? then Err(BadDirection) else Extreme(view.faces, d.value)
    case TopFace => Extreme(UpwardFaces(geo, view.faces, UP), UP)
    case BottomFace => Extreme(UpwardFaces(geo, view.faces, DOWN), DOWN)
    case Union(of) => FacesUnion(geo, view, of, {})
    case Intersect(of) =>
      if of == [] then Err(Panicked) else
        var first := FacesOf(geo, view, of[0]);
        if first.Err? then first else FacesIntersection(geo, view, of[1..], first.value)
    case Difference(base, minus) =>
      var b := FacesOf(geo, view, base);
      if b.Err? then b else
        var m := FacesOf(geo, view, minus);
        if m.Err? then m else Ok(b.value - m.value)
    case _ => Err(WrongKind(FaceTarget, if TargetOf(sel).Ok? then Some(TargetOf(sel).value) else None))
  }

  function FacesUnion(geo: Geometry, view: View, of: seq<Selector>, acc: set<nat>): Ids
    decreases of
  {
    if of == [] then Ok(acc) else
      var s := FacesOf(geo, view, of[0]);
      if s.Err? then s else FacesUnion(geo, view, of[1..], acc + s.value)
  }

  function FacesIntersection(geo: Geometry, view: View, of: seq<Selector>, acc: set<nat>): Ids
    decreases of
  {
    if of == [] then Ok(acc) else
      var s := FacesOf(geo, view, of[0]);
      if s.Err? then s else FacesIntersection(geo, view, of[1..], acc * s.value)
  }

  function EdgesOf(geo: Geometry, view: View, sel: Selector): Ids
    decreases sel
  {
    match sel
    case AllEdges => Ok(EdgeUniverse(view))
    case EdgeIds(ids) => CheckPresent(ids, EdgeUniverse(view), EdgeTarget)
    case EdgesAdjacentTo(faces) =>
      var matched := FacesOf(geo, view, faces);
      if matched.Err? then matched else Ok(BoundingEdges(view, matched.value))
    case EdgesExtreme(dir) =>
      var d := geo.unit(dir);
      if d.None? then Err(BadDirection) else Ok(ExtremeEdges(view.edges, d.value))
    case Union(of) => EdgesUnion(geo, view, of, {})
    case Intersect(of) =>
      if of == [] then Err(Panicked) else
        var first := EdgesOf(geo, view, of[0]);
        if first.Err? then first else EdgesIntersection(geo, view, of[1..], first.value)
    case Difference(base, minus) =>
      var b := EdgesOf(geo, view, base);
      if b.Err? then b else
        var m := EdgesOf(geo, view, minus);
        if m.Err? then m else Ok(b.value - m.value)
    case _ => Err(WrongKind(EdgeTarget, if TargetOf(sel).Ok? then Some(TargetOf(sel).value) else None))
  }

  function EdgesUnion(geo: Geometry, view: View, of: seq<Selector>, acc: set<nat>): Ids
    decreases of
  {
    if of == [] then Ok(acc) else
      var s := EdgesOf(geo, view, of[0]);
      if s.Err? then s else EdgesUnion(geo, view, of[1..], acc + s.value)
  }

  function EdgesIntersection(geo: Geometry, view: View, of: seq<Selector>, acc: set<nat>): Ids
    decreases of
  {
    if of == [] then Ok(acc) else
      var s := EdgesOf(geo, view, of[0]);
      if s.Err? then s else EdgesIntersection(geo, view, of[1..], acc * s.value)
  }

  /** `resolve`: in the selector's own kind. */
  function Resolved(geo: Geometry, view: View, sel: Selector): Ids {
    match TargetOf(sel)
    case Err(e) => Err(e)
    case Ok(FaceTarget) => FacesOf(geo, view, sel)
    case Ok(EdgeTarget) => EdgesOf(geo, view, sel)
  }

  // ----- the same by loops ---------------------------------------------------------------------

  class Resolver {
    const geo: Geometry
    const view: View

    constructor (geo: Geometry, view: View)
      ensures this.geo == geo && this.view == view
    {
      this.geo, this.view := geo, view;
    }

    method Resolve(sel: Selector) returns (r: Ids)
      ensures r == Resolved(geo, view, sel)
    {
      match TargetOf(sel) {
        case Err(e) => return Err(e);
        case Ok(FaceTarget) => r := ResolveFaces(sel);
        case Ok(EdgeTarget) => r := ResolveEdges(sel);
      }
    }

    method ResolveFaces(sel: Selector) returns (r: Ids)
      ensures r == FacesOf(geo, view, sel)
      decreases sel
    {
      match sel {
        case Union(of) => r := UniteFaces(of);
        case Intersect(of) =>
          if of == [] {
            return Err(Panicked);
          }
          var first := ResolveFaces(of[0]);
          if first.Err? {
            return first;
          }
          r := MeetFaces(of[1..], first.value);
        case Difference(base, minus) =>
          var acc := ResolveFaces(base);
          if acc.Err? {
            return acc;
          }
          var gone := ResolveFaces(minus);
          if gone.Err? {
            return gone;
          }
          return Ok(acc.value - gone.value);
        case _ => return FacesOf(geo, view, sel);
      }
    }

    method UniteFaces(of: seq<Selector>) returns (r: Ids)
      ensures r == FacesUnion(geo, view, of, {})
      decreases of
    {
      var acc: set<nat> := {};
      ghost var whole := FacesUnion(geo, view, of, {});
      assert of[0..] == of;
      for i := 0 to |of|
        invariant whole == FacesUnion(geo, view, of[i..], acc)
      {
        assert of[i..][0] == of[i] && of[i..][1..] == of[i + 1..];
        var s := ResolveFaces(of[i]);
        if s.Err? {
          return s;
        }
        acc := acc + s.value;
      }
      assert of[|of|..] == [];
      return Ok(acc);
    }

    method MeetFaces(of: seq<Selector>, first: set<nat>) returns (r: Ids)
      ensures r == FacesIntersection(geo, view, of, first)
      decreases of
    {
      var acc := first;
      ghost var whole := FacesIntersection(geo, view, of, first);
      assert of[0..] == of;
      for i := 0 to |of|
        invariant whole == FacesIntersection(geo, view, of[i..], acc)
      {
        assert of[i..][0] == of[i] && of[i..][1..] == of[i + 1..];
        var s := ResolveFaces(of[i]);
        if s.Err? {
          return s;
        }
        acc := acc * s.value;
      }
      assert of[|of|..] == [];
      return Ok(acc);
    }

    method ResolveEdges(sel: Selector) returns (r: Ids)
      ensures r == EdgesOf(geo, view, sel)
      decreases sel
    {
      match sel {
        case EdgesAdjacentTo(faces) =>
          var matched := ResolveFaces(faces);
          if matched.Err? {
            return matched;
          }
          return Ok(BoundingEdges(view, matched.value));
        case Union(of) => r := UniteEdges(of);
        case Intersect(of) =>
          if of == [] {
            return Err(Panicked);
          }
          var first := ResolveEdges(of[0]);
          if first.Err? {
            return first;
          }
          r := MeetEdges(of[1..], first.value);
        case Difference(base, minus) =>
          var acc := ResolveEdges(base);
          if acc.Err? {
            return acc;
          }
          var gone := ResolveEdges(minus);
          if gone.Err? {
            return gone;
          }
          return Ok(acc.value - gone.value);
        case _ => return EdgesOf(geo, view, sel);
      }
    }

    method UniteEdges(of: seq<Selector>) returns (r: Ids)
      ensures r == EdgesUnion(geo, view, of, {})
      decreases of
    {
      var acc: set<nat> := {};
      ghost var whole := EdgesUnion(geo, view, of, {});
      assert of[0..] == of;
      for i := 0 to |of|
        invariant whole == EdgesUnion(geo, view, of[i..], acc)
      {
        assert of[i..][0] == of[i] && of[i..][1..] == of[i + 1..];
        var s := ResolveEdges(of[i]);
        if s.Err? {
          return s;
        }
        acc := acc + s.value;
      }
      assert of[|of|..] == [];
      return Ok(acc);
    }

    method MeetEdges(of: seq<Selector>, first: set<nat>) returns (r: Ids)
      ensures r == EdgesIntersection(geo, view, of, first)
      decreases of
    {
      var acc := first;
      ghost var whole := EdgesIntersection(geo, view, of, first);
      assert of[0..] == of;
      for i := 0 to |of|
        invariant whole == EdgesIntersection(geo, view, of[i..], acc)
      {
        assert of[i..][0] == of[i] && of[i..][1..] == of[i + 1..];
        var s := ResolveEdges(of[i]);
        if s.Err? {
          return s;
        }
        acc := acc * s.value;
      }
      assert of[|of|..] == [];
      return Ok(acc);
    }
  }
}
