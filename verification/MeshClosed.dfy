/**
 The index buffers of the tessellated solids are closed and consistently oriented for every
 number of segments. Sphere, cylinder and cone are one family: rings of `n` vertices between
 two poles, a fan at each pole and bands of quads in between. The torus is a grid that wraps
 both ways. In each family an edge determines the place it comes from, and the place of its
 reverse can be computed.
 */
module MeshClosed {
  import opened Prelude
  import opened MeshVolume

  /** A vertex of the abstract surface. */
  datatype Corner = South | North | At(ring: nat, k: nat)

  /** One directed edge of one triangle. */
  datatype Slot =
    | SouthCap(k: nat, j: nat)
    | Band(ring: nat, k: nat, half: nat, j: nat)
    | NorthCap(k: nat, j: nat)

  type CornerEdge = (Corner, Corner)

  /** The next and the previous one around a ring of `n`. */
  function Succ(k: nat, n: nat): nat {
    if k + 1 == n then 0 else k + 1
  }

  function Pred(k: nat, n: nat): nat
    requires n > 0
  {
    if k == 0 then n - 1 else k - 1
  }

  function Flip(e: CornerEdge): CornerEdge {
    (e.1, e.0)
  }

  // ----- rings between two poles -----------------------------------------------------

  predicate ValidSlot(s: Slot, n: nat, top: nat) {
    s.k < n && s.j < 3 && (s.Band? ==> 1 <= s.ring < top && s.half < 2)
  }

  predicate ValidCorner(c: Corner, n: nat, top: nat) {
    c.At? ==> 1 <= c.ring <= top && c.k < n
  }

  /** Fans `(pole, next, current)` and `(current, next, pole)`, quads split along one diagonal. */
  function EdgeOf(s: Slot, n: nat, top: nat): CornerEdge {
    match s
    case SouthCap(k, j) =>
      if j == 0 then (South, At(1, Succ(k, n))) else if j == 1 then (At(1, Succ(k, n)), At(1, k)) else (At(1, k), South)
    case NorthCap(k, j) =>
      if j == 0 then (At(top, k), At(top, Succ(k, n))) else if j == 1 then (At(top, Succ(k, n)), North) else (North, At(top, k))
    case Band(i, k, half, j) =>
      var a, b, c, d := At(i, k), At(i, Succ(k, n)), At(i + 1, k), At(i + 1, Succ(k, n));
      if half == 0 then (if j == 0 then (a, b) else if j == 1 then (b, d) else (d, a))
      else (if j == 0 then (a, d) else if j == 1 then (d, c) else (c, a))
  }

  /** The place a directed edge comes from. */
  function SlotOf(e: CornerEdge, n: nat, top: nat): Slot
    requires n > 0
  {
    var (u, v) := e;
    if u.South? then (if v.At? then SouthCap(Pred(v.k, n), 0) else SouthCap(0, 0))
    else if v.South? then (if u.At? then SouthCap(u.k, 2) else SouthCap(0, 0))
    else if u.North? then (if v.At? then NorthCap(v.k, 2) else NorthCap(0, 0))
    else if v.North? then NorthCap(Pred(u.k, n), 1)
    else if u.ring == v.ring then
      if v.k == Succ(u.k, n) then (if u.ring == top then NorthCap(u.k, 0) else Band(u.ring, u.k, 0, 0))
      else if u.ring <= 1 then SouthCap(v.k, 1) else Band(u.ring - 1, v.k, 1, 1)
    else if v.ring > u.ring then
      if v.k == u.k then Band(u.ring, Pred(u.k, n), 0, 1) else Band(u.ring, u.k, 1, 0)
    else
      if v.k == u.k then Band(v.ring, v.k, 1, 2) else Band(v.ring, v.k, 0, 2)
  }

  lemma SlotOfEdge(s: Slot, n: nat, top: nat)
    requires n >= 3 && top >= 1 && ValidSlot(s, n, top)
    ensures SlotOf(EdgeOf(s, n, top), n, top) == s
    ensures ValidCorner(EdgeOf(s, n, top).0, n, top) && ValidCorner(EdgeOf(s, n, top).1, n, top)
  {
  }

  /** Every edge has a twin running the other way. */
  lemma TwinSlot(s: Slot, n: nat, top: nat)
    requires n >= 3 && top >= 1 && ValidSlot(s, n, top)
    ensures var t := SlotOf(Flip(EdgeOf(s, n, top)), n, top);
            ValidSlot(t, n, top) && EdgeOf(t, n, top) == Flip(EdgeOf(s, n, top))
  {
  }

  // ----- a grid that wraps both ways --------------------------------------------------

  predicate ValidCell(s: Slot, ns: nat, nt: nat) {
    s.Band? && s.ring < ns && s.k < nt && s.half < 2 && s.j < 3
  }

  predicate ValidKnot(c: Corner, ns: nat, nt: nat) {
    c.At? && c.ring < ns && c.k < nt
  }

  function TorusEdge(s: Slot, ns: nat, nt: nat): CornerEdge
    requires s.Band?
  {
    var a, b := At(s.ring, s.k), At(Succ(s.ring, ns), s.k);
    var c, d := At(Succ(s.ring, ns), Succ(s.k, nt)), At(s.ring, Succ(s.k, nt));
    if s.half == 0 then (if s.j == 0 then (a, c) else if s.j == 1 then (c, b) else (b, a))
    else (if s.j == 0 then (a, d) else if s.j == 1 then (d, c) else (c, a))
  }

  function TorusSlot(e: CornerEdge, ns: nat, nt: nat): Slot
    requires ns > 0 && nt > 0 && e.0.At? && e.1.At?
  {
    var (u, v) := e;
    if u.ring == v.ring then
      if v.k == Succ(u.k, nt) then Band(u.ring, u.k, 1, 0) else Band(Pred(u.ring, ns), v.k, 0, 1)
    else if u.k == v.k then
      if u.ring == Succ(v.ring, ns) then Band(v.ring, v.k, 0, 2) else Band(u.ring, Pred(u.k, nt), 1, 1)
    else if v.ring == Succ(u.ring, ns) && v.k == Succ(u.k, nt) then Band(u.ring, u.k, 0, 0)
    else Band(v.ring, v.k, 1, 2)
  }

  lemma TorusSlotOfEdge(s: Slot, ns: nat, nt: nat)
    requires ns >= 3 && nt >= 3 && ValidCell(s, ns, nt)
    ensures ValidKnot(TorusEdge(s, ns, nt).0, ns, nt) && ValidKnot(TorusEdge(s, ns, nt).1, ns, nt)
    ensures TorusSlot(TorusEdge(s, ns, nt), ns, nt) == s
  {
  }

  lemma TorusTwin(s: Slot, ns: nat, nt: nat)
    requires ns >= 3 && nt >= 3 && ValidCell(s, ns, nt)
    ensures ValidKnot(TorusEdge(s, ns, nt).0, ns, nt) && ValidKnot(TorusEdge(s, ns, nt).1, ns, nt)
    ensures var t := TorusSlot(Flip(TorusEdge(s, ns, nt)), ns, nt);
            ValidCell(t, ns, nt) && TorusEdge(t, ns, nt) == Flip(TorusEdge(s, ns, nt))
  {
  }

  // ----- from places to index buffers --------------------------------------------------

  /** All indices in range; every directed edge once, and its reverse once. */
  ghost predicate ClosedOriented(indices: seq<nat>, count: nat) {
    && |indices| % 3 == 0 && InRange(indices, count)
    && Distinct(Edges(indices))
    && forall e :: e in Edges(indices) ==> Turn(e) in Edges(indices)
  }

  lemma {:induction false} EdgesConcat(a: seq<nat>, b: seq<nat>)
    requires |a| % 3 == 0
    ensures Edges(a + b) == Edges(a) + Edges(b)
    decreases |a|
  {
    if a == [] {
      assert a + b == b;
    } else {
      assert (a + b)[0] == a[0] && (a + b)[1] == a[1] && (a + b)[2] == a[2] && (a + b)[3..] == a[3..] + b;
      EdgesConcat(a[3..], b);
    }
  }

  lemma EdgesOfTriangle(a: nat, b: nat, c: nat)
    ensures Edges([a, b, c]) == [(a, b), (b, c), (c, a)]
  {
    assert [a, b, c][3..] == [];
  }

  lemma EdgesOfTwo(a: nat, b: nat, c: nat, d: nat, e: nat, f: nat)
    ensures Edges([a, b, c, d, e, f]) == [(a, b), (b, c), (c, a), (d, e), (e, f), (f, d)]
  {
    assert [a, b, c, d, e, f] == [a, b, c] + [d, e, f];
    EdgesConcat([a, b, c], [d, e, f]);
    EdgesOfTriangle(a, b, c);
    EdgesOfTriangle(d, e, f);
  }

  lemma SameMembers(a: seq<EdgeT>, b: seq<EdgeT>)
    requires Distinct(a) && Distinct(b) && forall e :: e in a <==> e in b
    ensures multiset(a) == multiset(b)
  {
    forall e
      ensures multiset(a)[e] == multiset(b)[e]
    {
      DistinctCount(a, e);
      DistinctCount(b, e);
    }
  }

  lemma TurnedMembers(es: seq<EdgeT>)
    requires Distinct(es)
    ensures Distinct(Turned(es)) && forall e :: e in Turned(es) <==> Turn(e) in es
  {
    var ts := Turned(es);
    TurnedAt(es);
    forall i, j | 0 <= i < j < |ts|
      ensures ts[i] != ts[j]
    {
      assert es[i] != es[j];
    }
    forall e | Turn(e) in es
      ensures e in ts
    {
      var k :| 0 <= k < |es| && es[k] == Turn(e);
      assert ts[k] == e;
    }
  }

  /** A closed buffer's directed edges cancel, so its volume does not depend on its position. */
  lemma ClosedCancels(indices: seq<nat>, count: nat)
    requires ClosedOriented(indices, count)
    ensures Cancelling(indices)
  {
    var es := Edges(indices);
    TurnedMembers(es);
    forall e
      ensures e in es <==> e in Turned(es)
    {
      if Turn(e) in es {
        assert Turn(Turn(e)) == e;
      }
    }
    SameMembers(es, Turned(es));
  }

  lemma {:induction false} TurnedAt(es: seq<EdgeT>)
    ensures |Turned(es)| == |es| && forall i :: 0 <= i < |es| ==> Turned(es)[i] == Turn(es[i])
  {
    if es != [] {
      TurnedAt(es[1..]);
    }
  }

  lemma {:induction false} DistinctCount(es: seq<EdgeT>, e: EdgeT)
    requires Distinct(es)
    ensures multiset(es)[e] == if e in es then 1 else 0
    decreases |es|
  {
    if es != [] {
      assert es == [es[0]] + es[1..];
      DistinctCount(es[1..], e);
      assert es[0] !in es[1..];
    }
  }

  /** Injective numbering of corners carries closedness over to the buffer. */
  lemma NumberedClosed(indices: seq<nat>, count: nat, abstractEdges: seq<CornerEdge>, number: Corner -> nat, valid: Corner -> bool)
    requires |indices| % 3 == 0 && InRange(indices, count)
    requires |Edges(indices)| == |abstractEdges|
    requires forall i :: 0 <= i < |abstractEdges| ==>
      Edges(indices)[i] == (number(abstractEdges[i].0), number(abstractEdges[i].1))
    requires forall i :: 0 <= i < |abstractEdges| ==> valid(abstractEdges[i].0) && valid(abstractEdges[i].1)
    requires forall c, d :: valid(c) && valid(d) && number(c) == number(d) ==> c == d
    requires Distinct(abstractEdges) && forall e :: e in abstractEdges ==> Flip(e) in abstractEdges
    ensures ClosedOriented(indices, count)
  {
    var es := Edges(indices);
    forall i, j | 0 <= i < j < |es|
      ensures es[i] != es[j]
    {
      assert abstractEdges[i] != abstractEdges[j];
    }
    forall e | e in es
      ensures Turn(e) in es
    {
      var i :| 0 <= i < |es| && es[i] == e;
      assert abstractEdges[i] in abstractEdges;
      var j :| 0 <= j < |abstractEdges| && abstractEdges[j] == Flip(abstractEdges[i]);
      assert es[j] == Turn(e);
    }
  }

  lemma AddSlots(slots: seq<Slot>, more: seq<Slot>)
    requires Distinct(slots) && Distinct(more) && forall s :: s in more ==> s !in slots
    ensures Distinct(slots + more) && forall s :: s in slots + more <==> s in slots || s in more
  {
    var all := slots + more;
    forall i, j | 0 <= i < j < |all|
      ensures all[i] != all[j]
    {
      if i < |slots| && j >= |slots| {
        assert all[j] == more[j - |slots|] && all[j] in more && all[i] in slots;
      }
    }
  }

  function AbstractEdges(slots: seq<Slot>, n: nat, top: nat): (r: seq<CornerEdge>)
    ensures |r| == |slots|
  {
    seq(|slots|, i requires 0 <= i < |slots| => EdgeOf(slots[i], n, top))
  }

  /** A surface with its numbering of vertices. */
  datatype Solid =
    | Revolved(n: nat, top: nat, number: Corner -> nat)
    | Torus(ns: nat, nt: nat)

  function GridNumber(c: Corner, nt: nat): nat {
    if c.At? then c.ring * nt + c.k else 0
  }

  /** The numbered edge of a place. */
  function PairOf(solid: Solid, s: Slot): EdgeT {
    match solid
    case Revolved(n, top, number) =>
      (number(EdgeOf(s, n, top).0), number(EdgeOf(s, n, top).1))
    case Torus(ns, nt) =>
      if s.Band? then (GridNumber(TorusEdge(s, ns, nt).0, nt), GridNumber(TorusEdge(s, ns, nt).1, nt)) else (0, 0)
  }

  /** The buffer's edges are those of the listed places, in the same order. */
  ghost predicate Listed(indices: seq<nat>, slots: seq<Slot>, solid: Solid) {
    && |indices| % 3 == 0
    && |Edges(indices)| == |slots|
    && forall i :: 0 <= i < |slots| ==> Edges(indices)[i] == PairOf(solid, slots[i])
  }

  lemma ListMore(indices: seq<nat>, slots: seq<Slot>, moreIndices: seq<nat>, moreSlots: seq<Slot>, solid: Solid)
    requires Listed(indices, slots, solid) && Listed(moreIndices, moreSlots, solid)
    ensures Listed(indices + moreIndices, slots + moreSlots, solid)
  {
    EdgesConcat(indices, moreIndices);
  }

  predicate IsPlace(solid: Solid, s: Slot) {
    match solid
    case Revolved(n, top, _) => ValidSlot(s, n, top)
    case Torus(ns, nt) => ValidCell(s, ns, nt)
  }

  /** The directed edges of a buffer are exactly those of the surface. */
  ghost predicate HasExactly(indices: seq<nat>, solid: Solid) {
    && (forall s :: IsPlace(solid, s) ==> PairOf(solid, s) in Edges(indices))
    && forall e :: e in Edges(indices) ==> exists s :: IsPlace(solid, s) && PairOf(solid, s) == e
  }

  lemma ListedExactly(indices: seq<nat>, slots: seq<Slot>, solid: Solid)
    requires Listed(indices, slots, solid) && forall s :: s in slots <==> IsPlace(solid, s)
    ensures HasExactly(indices, solid)
  {
    forall s | IsPlace(solid, s)
      ensures PairOf(solid, s) in Edges(indices)
    {
      assert s in slots;
      var i :| 0 <= i < |slots| && slots[i] == s;
      assert Edges(indices)[i] in Edges(indices);
    }
    forall e | e in Edges(indices)
      ensures exists s :: IsPlace(solid, s) && PairOf(solid, s) == e
    {
      var i :| 0 <= i < |slots| && Edges(indices)[i] == e;
      assert slots[i] in slots;
    }
  }

  ghost predicate Numbers(number: Corner -> nat, n: nat, top: nat, count: nat) {
    && (forall c, d :: ValidCorner(c, n, top) && ValidCorner(d, n, top) && number(c) == number(d) ==> c == d)
    && forall c :: ValidCorner(c, n, top) ==> number(c) < count
  }

  lemma {:induction false} EdgesLength(indices: seq<nat>)
    requires |indices| % 3 == 0
    ensures |Edges(indices)| == |indices|
    ensures forall i :: 0 <= i < |indices| ==> Edges(indices)[i].0 == indices[i]
    decreases |indices|
  {
    if indices != [] {
      EdgesLength(indices[3..]);
      forall i | 0 <= i < |indices|
        ensures Edges(indices)[i].0 == indices[i]
      {
        if i >= 3 {
          assert Edges(indices)[i] == Edges(indices[3..])[i - 3];
        }
      }
    }
  }

  /** A buffer that lists every place of the surface once is closed and oriented. */
  lemma CompleteListIsClosed(indices: seq<nat>, slots: seq<Slot>, n: nat, top: nat, number: Corner -> nat, count: nat)
    requires n >= 3 && top >= 1 && Numbers(number, n, top, count)
    requires Listed(indices, slots, Revolved(n, top, number)) && Distinct(slots)
    requires forall s :: s in slots <==> ValidSlot(s, n, top)
    ensures ClosedOriented(indices, count) && HasExactly(indices, Revolved(n, top, number))
  {
    var ae := AbstractEdges(slots, n, top);
    EdgesLength(indices);
    forall i | 0 <= i < |slots|
      ensures SlotOf(ae[i], n, top) == slots[i]
      ensures ValidCorner(ae[i].0, n, top) && ValidCorner(ae[i].1, n, top)
      ensures Flip(ae[i]) in ae
    {
      assert slots[i] in slots;
      SlotOfEdge(slots[i], n, top);
      TwinSlot(slots[i], n, top);
      var t := SlotOf(Flip(ae[i]), n, top);
      assert t in slots;
      var j :| 0 <= j < |slots| && slots[j] == t;
      assert ae[j] == Flip(ae[i]);
    }
    forall i | 0 <= i < |indices|
      ensures indices[i] < count
    {
      assert Edges(indices)[i].0 == number(ae[i].0);
    }
    NumberedClosed(indices, count, ae, number, c => ValidCorner(c, n, top));
    ListedExactly(indices, slots, Revolved(n, top, number));
  }

  // ----- the torus -----------------------------------------------------------------------

  lemma RowOrder(i: nat, j: nat, k: nat, l: nat, n: nat)
    requires k < n && l < n && i < j
    ensures i * n + k < j * n + l
  {
    assert (i + 1) * n <= j * n;
  }

  lemma GridNumbers(c: Corner, d: Corner, ns: nat, nt: nat)
    requires ValidKnot(c, ns, nt) && ValidKnot(d, ns, nt)
    ensures GridNumber(c, nt) < ns * nt
    ensures GridNumber(c, nt) == GridNumber(d, nt) ==> c == d
  {
    RowOrder(c.ring, ns, c.k, 0, nt);
    if c.ring < d.ring {
      RowOrder(c.ring, d.ring, c.k, d.k, nt);
    } else if d.ring < c.ring {
      RowOrder(d.ring, c.ring, d.k, c.k, nt);
    }
  }

  lemma CompleteTorusIsClosed(indices: seq<nat>, slots: seq<Slot>, ns: nat, nt: nat)
    requires ns >= 3 && nt >= 3
    requires Listed(indices, slots, Torus(ns, nt)) && Distinct(slots)
    requires forall s :: s in slots <==> ValidCell(s, ns, nt)
    ensures ClosedOriented(indices, ns * nt) && HasExactly(indices, Torus(ns, nt))
  {
    forall i | 0 <= i < |slots|
      ensures slots[i].Band?
    {
      assert slots[i] in slots;
    }
    var ae := seq(|slots|, i requires 0 <= i < |slots| => TorusEdge(slots[i], ns, nt));
    EdgesLength(indices);
    forall i | 0 <= i < |slots|
      ensures ValidKnot(ae[i].0, ns, nt) && ValidKnot(ae[i].1, ns, nt)
      ensures TorusSlot(ae[i], ns, nt) == slots[i]
      ensures Flip(ae[i]) in ae
    {
      assert slots[i] in slots;
      TorusSlotOfEdge(slots[i], ns, nt);
      TorusTwin(slots[i], ns, nt);
      var t := TorusSlot(Flip(ae[i]), ns, nt);
      assert t in slots;
      var j :| 0 <= j < |slots| && slots[j] == t;
      assert ae[j] == Flip(ae[i]);
    }
    forall i | 0 <= i < |indices|
      ensures indices[i] < ns * nt
    {
      assert Edges(indices)[i].0 == GridNumber(ae[i].0, nt);
      GridNumbers(ae[i].0, ae[i].0, ns, nt);
    }
    forall c, d | ValidKnot(c, ns, nt) && ValidKnot(d, ns, nt) && GridNumber(c, nt) == GridNumber(d, nt)
      ensures c == d
    {
      GridNumbers(c, d, ns, nt);
    }
    NumberedClosed(indices, ns * nt, ae, c => GridNumber(c, nt), c => ValidKnot(c, ns, nt));
    ListedExactly(indices, slots, Torus(ns, nt));
  }
}
