/**
 The tessellators' index loops, for any number of segments. Vertex positions are computed
 from sines and cosines and are not part of this model; the loops use only their numbering.
 */
module Tessellate {
  import opened Prelude
  import opened MeshVolume
  import opened MeshClosed

  lemma ModSucc(k: nat, n: nat)
    requires k < n
    ensures k % n == k && (k + 1) % n == Succ(k, n)
  {
    if k + 1 == n {
      assert (k + 1) % n == 0;
    }
  }

  lemma OneTriangle(a: nat, b: nat, c: nat, s0: Slot, s1: Slot, s2: Slot, solid: Solid)
    requires PairOf(solid, s0) == (a, b) && PairOf(solid, s1) == (b, c) && PairOf(solid, s2) == (c, a)
    ensures Listed([a, b, c], [s0, s1, s2], solid)
  {
    EdgesOfTriangle(a, b, c);
  }

  /** More indices whose places are new. */
  lemma AddPlaces(indices: seq<nat>, slots: seq<Slot>, moreIndices: seq<nat>, more: seq<Slot>, solid: Solid)
    requires Listed(indices, slots, solid) && Distinct(slots)
    requires Listed(moreIndices, more, solid) && Distinct(more)
    requires forall s :: s in more ==> s !in slots
    ensures Listed(indices + moreIndices, slots + more, solid)
    ensures Distinct(slots + more)
    ensures forall s :: s in slots + more <==> s in slots || s in more
  {
    ListMore(indices, slots, moreIndices, more, solid);
    AddSlots(slots, more);
  }

  /** The places listed so far are those `when` speaks of, each once. */
  ghost predicate Progress(indices: seq<nat>, slots: seq<Slot>, solid: Solid, when: Slot -> bool) {
    && Listed(indices, slots, solid) && Distinct(slots)
    && forall s :: s in slots <==> when(s)
  }

  lemma NoProgress(solid: Solid, when: Slot -> bool)
    requires forall s :: !when(s)
    ensures Progress([], [], solid, when)
  {
  }

  /** `now` speaks of what `was` speaks of and of the new places `more`. */
  ghost predicate Extends(was: Slot -> bool, more: seq<Slot>, now: Slot -> bool) {
    && Distinct(more)
    && (forall s :: s in more ==> !was(s))
    && (forall s :: now(s) <==> was(s) || s in more)
  }

  lemma AllPlaces(indices: seq<nat>, slots: seq<Slot>, solid: Solid, when: Slot -> bool)
    requires Progress(indices, slots, solid, when)
    ensures Listed(indices, slots, solid) && Distinct(slots) && forall s :: s in slots <==> when(s)
  {
  }

  lemma Advance(indices: seq<nat>, slots: seq<Slot>, moreIndices: seq<nat>, more: seq<Slot>, solid: Solid,
                was: Slot -> bool, now: Slot -> bool)
    requires Progress(indices, slots, solid, was)
    requires Listed(moreIndices, more, solid) && Extends(was, more, now)
    ensures Progress(indices + moreIndices, slots + more, solid, now)
  {
    AddPlaces(indices, slots, moreIndices, more, solid);
  }

  /** The same places described in another way. */
  lemma Same(indices: seq<nat>, slots: seq<Slot>, solid: Solid, was: Slot -> bool, now: Slot -> bool)
    requires Progress(indices, slots, solid, was) && forall s :: was(s) <==> now(s)
    ensures Progress(indices, slots, solid, now)
  {
  }

  function SouthSlots(k: nat): seq<Slot> {
    [SouthCap(k, 0), SouthCap(k, 1), SouthCap(k, 2)]
  }

  function NorthSlots(k: nat): seq<Slot> {
    [NorthCap(k, 0), NorthCap(k, 1), NorthCap(k, 2)]
  }

  function BandSlots(i: nat, k: nat): seq<Slot> {
    [Band(i, k, 0, 0), Band(i, k, 0, 1), Band(i, k, 0, 2), Band(i, k, 1, 0), Band(i, k, 1, 1), Band(i, k, 1, 2)]
  }

  lemma SouthIs(k: nat)
    ensures Distinct(SouthSlots(k)) && forall s :: s in SouthSlots(k) <==> s.SouthCap? && s.k == k && s.j < 3
  {
  }

  lemma NorthIs(k: nat)
    ensures Distinct(NorthSlots(k)) && forall s :: s in NorthSlots(k) <==> s.NorthCap? && s.k == k && s.j < 3
  {
  }

  lemma BandIs(i: nat, k: nat)
    ensures Distinct(BandSlots(i, k)) && forall s :: s in BandSlots(i, k) <==> s.Band? && s.ring == i && s.k == k && s.half < 2 && s.j < 3
  {
  }

  lemma SouthListed(k: nat, n: nat, top: nat, number: Corner -> nat)
    ensures Listed([number(South), number(At(1, Succ(k, n))), number(At(1, k))], SouthSlots(k), Revolved(n, top, number))
  {
    OneTriangle(number(South), number(At(1, Succ(k, n))), number(At(1, k)),
                SouthCap(k, 0), SouthCap(k, 1), SouthCap(k, 2), Revolved(n, top, number));
  }

  lemma NorthListed(k: nat, n: nat, top: nat, number: Corner -> nat)
    ensures Listed([number(At(top, k)), number(At(top, Succ(k, n))), number(North)], NorthSlots(k), Revolved(n, top, number))
  {
    OneTriangle(number(At(top, k)), number(At(top, Succ(k, n))), number(North),
                NorthCap(k, 0), NorthCap(k, 1), NorthCap(k, 2), Revolved(n, top, number));
  }

  lemma BandListed(i: nat, k: nat, n: nat, top: nat, number: Corner -> nat)
    ensures var a, b := number(At(i, k)), number(At(i, Succ(k, n)));
            var c, d := number(At(i + 1, k)), number(At(i + 1, Succ(k, n)));
            Listed([a, b, d, a, d, c], BandSlots(i, k), Revolved(n, top, number))
  {
    var a, b := number(At(i, k)), number(At(i, Succ(k, n)));
    var c, d := number(At(i + 1, k)), number(At(i + 1, Succ(k, n)));
    EdgesOfTwo(a, b, d, a, d, c);
  }

  // ----- cone --------------------------------------------------------------------------

  function ConeNumber(n: nat): Corner -> nat {
    (c: Corner) => match c case At(_, k) => k case North => n case South => n + 1
  }

  predicate InCone(s: Slot, n: nat, k: nat, flank: bool) {
    ValidSlot(s, n, 1) && (s.k < k || (s.k == k && s.NorthCap? && flank))
  }

  function ConeDone(n: nat, k: nat, flank: bool): Slot -> bool {
    s => InCone(s, n, k, flank)
  }

  lemma FlankPlaces(n: nat, k: nat)
    requires k < n
    ensures Extends(ConeDone(n, k, false), NorthSlots(k), ConeDone(n, k, true))
  {
    NorthIs(k);
  }

  lemma BasePlaces(n: nat, k: nat)
    requires k < n
    ensures Extends(ConeDone(n, k, true), SouthSlots(k), ConeDone(n, k + 1, false))
  {
    SouthIs(k);
  }

  lemma ConeListed(n: nat, k: nat)
    requires n >= 3 && k < n
    ensures Listed([k, Succ(k, n), n], NorthSlots(k), Revolved(n, 1, ConeNumber(n)))
    ensures Listed([n + 1, Succ(k, n), k], SouthSlots(k), Revolved(n, 1, ConeNumber(n)))
  {
    NorthListed(k, n, 1, ConeNumber(n));
    SouthListed(k, n, 1, ConeNumber(n));
  }

  lemma FlankStep(indices: seq<nat>, slots: seq<Slot>, n: nat, k: nat)
    requires n >= 3 && k < n
    requires Progress(indices, slots, Revolved(n, 1, ConeNumber(n)), ConeDone(n, k, false))
    ensures Progress(indices + [k, Succ(k, n), n], slots + NorthSlots(k), Revolved(n, 1, ConeNumber(n)), ConeDone(n, k, true))
  {
    FlankPlaces(n, k);
    ConeListed(n, k);
    Advance(indices, slots, [k, Succ(k, n), n], NorthSlots(k), Revolved(n, 1, ConeNumber(n)),
            ConeDone(n, k, false), ConeDone(n, k, true));
  }

  lemma BaseStep(indices: seq<nat>, slots: seq<Slot>, n: nat, k: nat)
    requires n >= 3 && k < n
    requires Progress(indices, slots, Revolved(n, 1, ConeNumber(n)), ConeDone(n, k, true))
    ensures Progress(indices + [n + 1, Succ(k, n), k], slots + SouthSlots(k), Revolved(n, 1, ConeNumber(n)), ConeDone(n, k + 1, false))
  {
    BasePlaces(n, k);
    ConeListed(n, k);
    Advance(indices, slots, [n + 1, Succ(k, n), k], SouthSlots(k), Revolved(n, 1, ConeNumber(n)),
            ConeDone(n, k, true), ConeDone(n, k + 1, false));
  }

  /** The triangles of the first `k` segments, a flank and a piece of the base each. */
  function ConeList(n: nat, k: nat): seq<nat> {
    if k == 0 then [] else ConeList(n, k - 1) + [k - 1, Succ(k - 1, n), n] + [n + 1, Succ(k - 1, n), k - 1]
  }

  method ConeIndices(n: nat) returns (indices: seq<nat>)
    requires n >= 3
    ensures ClosedOriented(indices, n + 2) && HasExactly(indices, Revolved(n, 1, ConeNumber(n)))
    ensures indices == ConeList(n, n)
  {
    hide HasExactly, ClosedOriented, Progress, Listed, Distinct;
    NoProgress(Revolved(n, 1, ConeNumber(n)), ConeDone(n, 0, false));
    var apex, cb := n, n + 1;
    indices := [];
    ghost var slots: seq<Slot> := [];
    for k := 0 to n
      invariant Progress(indices, slots, Revolved(n, 1, ConeNumber(n)), ConeDone(n, k, false))
      invariant indices == ConeList(n, k)
    {
      ModSucc(k, n);
      var b0, b1 := k, (k + 1) % n;
      FlankStep(indices, slots, n, k);
      indices, slots := indices + [b0, b1, apex], slots + NorthSlots(k);
      BaseStep(indices, slots, n, k);
      indices, slots := indices + [cb, b1, b0], slots + SouthSlots(k);
    }
    AllPlaces(indices, slots, Revolved(n, 1, ConeNumber(n)), ConeDone(n, n, false));
    CompleteListIsClosed(indices, slots, n, 1, ConeNumber(n), n + 2);
  }

  // ----- cylinder ------------------------------------------------------------------------

  function CylinderNumber(n: nat): Corner -> nat {
    (c: Corner) => match c case At(ring, k) => (if ring == 1 then k else n + k) case South => 2 * n case North => 2 * n + 1
  }

  /** The top fan is pushed centre first: the same triangle, begun at another corner. */
  lemma TopFanListed(k: nat, n: nat, number: Corner -> nat)
    ensures Listed([number(North), number(At(2, k)), number(At(2, Succ(k, n)))], [NorthCap(k, 2), NorthCap(k, 0), NorthCap(k, 1)], Revolved(n, 2, number))
  {
    OneTriangle(number(North), number(At(2, k)), number(At(2, Succ(k, n))),
                NorthCap(k, 2), NorthCap(k, 0), NorthCap(k, 1), Revolved(n, 2, number));
  }

  function FanSlots(k: nat): seq<Slot> {
    [NorthCap(k, 2), NorthCap(k, 0), NorthCap(k, 1)]
  }

  predicate InCylinder(s: Slot, n: nat, k: nat, sides: bool, bottom: bool) {
    ValidSlot(s, n, 2) && (s.k < k || (s.k == k && ((s.Band? && sides) || (s.SouthCap? && bottom))))
  }

  function CylinderDone(n: nat, k: nat, sides: bool, bottom: bool): Slot -> bool {
    s => InCylinder(s, n, k, sides, bottom)
  }

  lemma SidePlaces(n: nat, k: nat)
    requires k < n
    ensures Extends(CylinderDone(n, k, false, false), BandSlots(1, k), CylinderDone(n, k, true, false))
  {
    BandIs(1, k);
  }

  lemma BottomPlaces(n: nat, k: nat)
    requires k < n
    ensures Extends(CylinderDone(n, k, true, false), SouthSlots(k), CylinderDone(n, k, true, true))
  {
    SouthIs(k);
  }

  lemma FanIs(k: nat)
    ensures Distinct(FanSlots(k)) && forall s :: s in FanSlots(k) <==> s.NorthCap? && s.k == k && s.j < 3
  {
  }

  lemma TopPlaces(n: nat, k: nat)
    requires k < n
    ensures Extends(CylinderDone(n, k, true, true), FanSlots(k), CylinderDone(n, k + 1, false, false))
  {
    FanIs(k);
  }

  lemma SideListed(n: nat, k: nat)
    requires n >= 3 && k < n
    ensures var b0, b1, t0, t1 := k, Succ(k, n), n + k, n + Succ(k, n);
            Listed([b0, b1, t1, b0, t1, t0], BandSlots(1, k), Revolved(n, 2, CylinderNumber(n)))
  {
    BandListed(1, k, n, 2, CylinderNumber(n));
  }

  lemma CapsListed(n: nat, k: nat)
    requires n >= 3 && k < n
    ensures Listed([2 * n, Succ(k, n), k], SouthSlots(k), Revolved(n, 2, CylinderNumber(n)))
    ensures Listed([2 * n + 1, n + k, n + Succ(k, n)], FanSlots(k), Revolved(n, 2, CylinderNumber(n)))
  {
    SouthListed(k, n, 2, CylinderNumber(n));
    TopFanListed(k, n, CylinderNumber(n));
  }

  lemma SideStep(indices: seq<nat>, slots: seq<Slot>, n: nat, k: nat)
    requires n >= 3 && k < n
    requires Progress(indices, slots, Revolved(n, 2, CylinderNumber(n)), CylinderDone(n, k, false, false))
    ensures var b0, b1, t0, t1 := k, Succ(k, n), n + k, n + Succ(k, n);
            Progress(indices + [b0, b1, t1, b0, t1, t0], slots + BandSlots(1, k), Revolved(n, 2, CylinderNumber(n)),
                     CylinderDone(n, k, true, false))
  {
    SidePlaces(n, k);
    SideListed(n, k);
    var b0, b1, t0, t1 := k, Succ(k, n), n + k, n + Succ(k, n);
    var side: seq<nat> := [b0, b1, t1, b0, t1, t0];
    Advance(indices, slots, side, BandSlots(1, k), Revolved(n, 2, CylinderNumber(n)),
            CylinderDone(n, k, false, false), CylinderDone(n, k, true, false));
  }

  lemma BottomStep(indices: seq<nat>, slots: seq<Slot>, n: nat, k: nat)
    requires n >= 3 && k < n
    requires Progress(indices, slots, Revolved(n, 2, CylinderNumber(n)), CylinderDone(n, k, true, false))
    ensures Progress(indices + [2 * n, Succ(k, n), k], slots + SouthSlots(k), Revolved(n, 2, CylinderNumber(n)),
                     CylinderDone(n, k, true, true))
  {
    BottomPlaces(n, k);
    CapsListed(n, k);
    Advance(indices, slots, [2 * n, Succ(k, n), k], SouthSlots(k), Revolved(n, 2, CylinderNumber(n)),
            CylinderDone(n, k, true, false), CylinderDone(n, k, true, true));
  }

  lemma TopStep(indices: seq<nat>, slots: seq<Slot>, n: nat, k: nat)
    requires n >= 3 && k < n
    requires Progress(indices, slots, Revolved(n, 2, CylinderNumber(n)), CylinderDone(n, k, true, true))
    ensures Progress(indices + [2 * n + 1, n + k, n + Succ(k, n)], slots + FanSlots(k), Revolved(n, 2, CylinderNumber(n)),
                     CylinderDone(n, k + 1, false, false))
  {
    TopPlaces(n, k);
    CapsListed(n, k);
    Advance(indices, slots, [2 * n + 1, n + k, n + Succ(k, n)], FanSlots(k), Revolved(n, 2, CylinderNumber(n)),
            CylinderDone(n, k, true, true), CylinderDone(n, k + 1, false, false));
  }

  /** One turn around: a side quad, a bottom triangle and a top triangle. */
  lemma CylinderTurn(indices: seq<nat>, slots: seq<Slot>, n: nat, k: nat) returns (slots': seq<Slot>)
    requires n >= 3 && k < n
    requires Progress(indices, slots, Revolved(n, 2, CylinderNumber(n)), CylinderDone(n, k, false, false))
    ensures var b0, b1, t0, t1 := k, Succ(k, n), n + k, n + Succ(k, n);
            Progress(indices + [b0, b1, t1, b0, t1, t0] + [2 * n, b1, b0] + [2 * n + 1, t0, t1], slots',
                     Revolved(n, 2, CylinderNumber(n)), CylinderDone(n, k + 1, false, false))
  {
    var b0, b1, t0, t1 := k, Succ(k, n), n + k, n + Succ(k, n);
    var sides := indices + [b0, b1, t1, b0, t1, t0];
    SideStep(indices, slots, n, k);
    BottomStep(sides, slots + BandSlots(1, k), n, k);
    TopStep(sides + [2 * n, b1, b0], slots + BandSlots(1, k) + SouthSlots(k), n, k);
    slots' := slots + BandSlots(1, k) + SouthSlots(k) + FanSlots(k);
  }

  /** The triangles of the first `k` segments: two for the side, one each for the caps. */
  function CylinderList(n: nat, k: nat): seq<nat> {
    if k == 0 then [] else
      var b0, b1, t0, t1 := k - 1, Succ(k - 1, n), n + (k - 1), n + Succ(k - 1, n);
      CylinderList(n, k - 1) + [b0, b1, t1, b0, t1, t0] + [2 * n, b1, b0] + [2 * n + 1, t0, t1]
  }

  method CylinderIndices(n: nat) returns (indices: seq<nat>)
    requires n >= 3
    ensures ClosedOriented(indices, 2 * n + 2) && HasExactly(indices, Revolved(n, 2, CylinderNumber(n)))
    ensures indices == CylinderList(n, n)
  {
    hide HasExactly, ClosedOriented, Progress, Listed, Distinct;
    NoProgress(Revolved(n, 2, CylinderNumber(n)), CylinderDone(n, 0, false, false));
    var cb, ct := 2 * n, 2 * n + 1;
    indices := [];
    ghost var slots: seq<Slot> := [];
    for k := 0 to n
      invariant Progress(indices, slots, Revolved(n, 2, CylinderNumber(n)), CylinderDone(n, k, false, false))
      invariant indices == CylinderList(n, k)
    {
      ModSucc(k, n);
      slots := CylinderTurn(indices, slots, n, k);
      var b0, b1 := k, (k + 1) % n;
      var t0, t1 := n + k, n + (k + 1) % n;
      indices := indices + [b0, b1, t1, b0, t1, t0];
      indices := indices + [cb, b1, b0];
      indices := indices + [ct, t0, t1];
    }
    AllPlaces(indices, slots, Revolved(n, 2, CylinderNumber(n)), CylinderDone(n, n, false, false));
    CompleteListIsClosed(indices, slots, n, 2, CylinderNumber(n), 2 * n + 2);
  }

  // ----- sphere --------------------------------------------------------------------------

  function RingVertex(i: int, k: nat, lon: nat): int
    requires lon > 0
  {
    1 + (i - 1) * lon + k % lon
  }

  function SphereNumber(lon: nat, stacks: nat): Corner -> nat
    requires lon > 0 && stacks >= 1
  {
    (c: Corner) => match c
      case South => 0
      case North => 1 + (stacks - 1) * lon
      case At(ring, k) => if ring >= 1 then 1 + (ring - 1) * lon + k else 0
  }

  lemma SphereRingRange(lon: nat, top: nat, ring: nat, k: nat)
    requires lon >= 3 && 1 <= ring <= top && k < lon
    ensures 1 <= 1 + (ring - 1) * lon + k < 1 + top * lon
  {
    RowOrder(ring - 1, top, k, 0, lon);
  }

  lemma SphereRingsDiffer(lon: nat, ring: nat, k: nat, other: nat, j: nat)
    requires lon >= 3 && ring >= 1 && other >= 1 && k < lon && j < lon
    requires 1 + (ring - 1) * lon + k == 1 + (other - 1) * lon + j
    ensures ring == other && k == j
  {
    if ring < other {
      RowOrder(ring - 1, other - 1, k, j, lon);
    } else if other < ring {
      RowOrder(other - 1, ring - 1, j, k, lon);
    }
  }

  lemma SphereNumbers(lon: nat, stacks: nat)
    requires lon >= 3 && stacks >= 2
    ensures Numbers(SphereNumber(lon, stacks), lon, stacks - 1, 2 + (stacks - 1) * lon)
  {
    var number := SphereNumber(lon, stacks);
    var top := stacks - 1;
    forall c | ValidCorner(c, lon, top) && c.At?
      ensures 1 <= number(c) < 1 + top * lon
    {
      SphereRingRange(lon, top, c.ring, c.k);
    }
    forall c, d | ValidCorner(c, lon, top) && ValidCorner(d, lon, top) && number(c) == number(d)
      ensures c == d
    {
      if c.At? && d.At? {
        SphereRingsDiffer(lon, c.ring, c.k, d.ring, d.k);
      }
    }
  }

  lemma RingIs(i: nat, k: nat, lon: nat, stacks: nat)
    requires i >= 1 && k < lon && stacks >= 1
    ensures RingVertex(i, k, lon) == SphereNumber(lon, stacks)(At(i, k))
    ensures RingVertex(i, k + 1, lon) == SphereNumber(lon, stacks)(At(i, Succ(k, lon)))
  {
    ModSucc(k, lon);
  }

  predicate InSouthFan(s: Slot, lon: nat, top: nat, k: nat) {
    ValidSlot(s, lon, top) && s.SouthCap? && s.k < k
  }

  function SouthFanDone(lon: nat, top: nat, k: nat): Slot -> bool {
    s => InSouthFan(s, lon, top, k)
  }

  predicate InBands(s: Slot, lon: nat, top: nat, i: nat, k: nat) {
    ValidSlot(s, lon, top) && (s.SouthCap? || (s.Band? && (s.ring < i || (s.ring == i && s.k < k))))
  }

  function BandsDone(lon: nat, top: nat, i: nat, k: nat): Slot -> bool {
    s => InBands(s, lon, top, i, k)
  }

  predicate InNorthFan(s: Slot, lon: nat, top: nat, k: nat) {
    ValidSlot(s, lon, top) && (!s.NorthCap? || s.k < k)
  }

  function NorthFanDone(lon: nat, top: nat, k: nat): Slot -> bool {
    s => InNorthFan(s, lon, top, k)
  }

  lemma SouthFanPlaces(lon: nat, top: nat, k: nat)
    requires k < lon && top >= 1
    ensures Extends(SouthFanDone(lon, top, k), SouthSlots(k), SouthFanDone(lon, top, k + 1))
  {
    SouthIs(k);
  }

  lemma NorthFanPlaces(lon: nat, top: nat, k: nat)
    requires k < lon && top >= 1
    ensures Extends(NorthFanDone(lon, top, k), NorthSlots(k), NorthFanDone(lon, top, k + 1))
  {
    NorthIs(k);
  }

  lemma BandPlaces(lon: nat, top: nat, i: nat, k: nat)
    requires k < lon && 1 <= i < top
    ensures Extends(BandsDone(lon, top, i, k), BandSlots(i, k), BandsDone(lon, top, i, k + 1))
  {
    BandIs(i, k);
  }

  lemma SouthFanListed(lon: nat, stacks: nat, k: nat)
    requires lon >= 3 && stacks >= 2 && k < lon
    ensures RingVertex(1, k, lon) >= 0 && RingVertex(1, k + 1, lon) >= 0
    ensures Listed([0, RingVertex(1, k + 1, lon), RingVertex(1, k, lon)], SouthSlots(k), Revolved(lon, stacks - 1, SphereNumber(lon, stacks)))
  {
    RingIs(1, k, lon, stacks);
    SouthListed(k, lon, stacks - 1, SphereNumber(lon, stacks));
  }

  lemma NorthFanListed(lon: nat, stacks: nat, k: nat)
    requires lon >= 3 && stacks >= 2 && k < lon
    ensures RingVertex(stacks - 1, k, lon) >= 0 && RingVertex(stacks - 1, k + 1, lon) >= 0
    ensures Listed([RingVertex(stacks - 1, k, lon), RingVertex(stacks - 1, k + 1, lon), 1 + (stacks - 1) * lon],
                   NorthSlots(k), Revolved(lon, stacks - 1, SphereNumber(lon, stacks)))
  {
    RingIs(stacks - 1, k, lon, stacks);
    NorthListed(k, lon, stacks - 1, SphereNumber(lon, stacks));
  }

  lemma BandQuadListed(lon: nat, stacks: nat, i: nat, k: nat)
    requires lon >= 3 && 1 <= i < stacks - 1 && k < lon
    ensures RingVertex(i, k, lon) >= 0 && RingVertex(i, k + 1, lon) >= 0
    ensures RingVertex(i + 1, k, lon) >= 0 && RingVertex(i + 1, k + 1, lon) >= 0
    ensures var a, b := RingVertex(i, k, lon), RingVertex(i, k + 1, lon);
            var c, d := RingVertex(i + 1, k, lon), RingVertex(i + 1, k + 1, lon);
            Listed([a, b, d, a, d, c], BandSlots(i, k), Revolved(lon, stacks - 1, SphereNumber(lon, stacks)))
  {
    RingIs(i, k, lon, stacks);
    RingIs(i + 1, k, lon, stacks);
    BandListed(i, k, lon, stacks - 1, SphereNumber(lon, stacks));
  }

  lemma SouthStep(indices: seq<nat>, slots: seq<Slot>, lon: nat, stacks: nat, k: nat)
    requires lon >= 3 && stacks >= 2 && k < lon
    requires Progress(indices, slots, Revolved(lon, stacks - 1, SphereNumber(lon, stacks)), SouthFanDone(lon, stacks - 1, k))
    ensures RingVertex(1, k, lon) >= 0 && RingVertex(1, k + 1, lon) >= 0
    ensures Progress(indices + [0, RingVertex(1, k + 1, lon), RingVertex(1, k, lon)], slots + SouthSlots(k),
                     Revolved(lon, stacks - 1, SphereNumber(lon, stacks)), SouthFanDone(lon, stacks - 1, k + 1))
  {
    SouthFanPlaces(lon, stacks - 1, k);
    SouthFanListed(lon, stacks, k);
    Advance(indices, slots, [0, RingVertex(1, k + 1, lon), RingVertex(1, k, lon)], SouthSlots(k), Revolved(lon, stacks - 1, SphereNumber(lon, stacks)),
            SouthFanDone(lon, stacks - 1, k), SouthFanDone(lon, stacks - 1, k + 1));
  }

  lemma BandStep(indices: seq<nat>, slots: seq<Slot>, lon: nat, stacks: nat, i: nat, k: nat)
    requires lon >= 3 && 1 <= i < stacks - 1 && k < lon
    requires Progress(indices, slots, Revolved(lon, stacks - 1, SphereNumber(lon, stacks)), BandsDone(lon, stacks - 1, i, k))
    ensures RingVertex(i, k, lon) >= 0 && RingVertex(i, k + 1, lon) >= 0
    ensures RingVertex(i + 1, k, lon) >= 0 && RingVertex(i + 1, k + 1, lon) >= 0
    ensures var a, b := RingVertex(i, k, lon), RingVertex(i, k + 1, lon);
            var c, d := RingVertex(i + 1, k, lon), RingVertex(i + 1, k + 1, lon);
            Progress(indices + [a, b, d, a, d, c], slots + BandSlots(i, k), Revolved(lon, stacks - 1, SphereNumber(lon, stacks)),
                     BandsDone(lon, stacks - 1, i, k + 1))
  {
    BandPlaces(lon, stacks - 1, i, k);
    BandQuadListed(lon, stacks, i, k);
    var a, b := RingVertex(i, k, lon), RingVertex(i, k + 1, lon);
    var c, d := RingVertex(i + 1, k, lon), RingVertex(i + 1, k + 1, lon);
    Advance(indices, slots, [a, b, d, a, d, c], BandSlots(i, k), Revolved(lon, stacks - 1, SphereNumber(lon, stacks)),
            BandsDone(lon, stacks - 1, i, k), BandsDone(lon, stacks - 1, i, k + 1));
  }

  lemma NorthStep(indices: seq<nat>, slots: seq<Slot>, lon: nat, stacks: nat, k: nat)
    requires lon >= 3 && stacks >= 2 && k < lon
    requires Progress(indices, slots, Revolved(lon, stacks - 1, SphereNumber(lon, stacks)), NorthFanDone(lon, stacks - 1, k))
    ensures RingVertex(stacks - 1, k, lon) >= 0 && RingVertex(stacks - 1, k + 1, lon) >= 0
    ensures Progress(indices + [RingVertex(stacks - 1, k, lon), RingVertex(stacks - 1, k + 1, lon), 1 + (stacks - 1) * lon],
                     slots + NorthSlots(k), Revolved(lon, stacks - 1, SphereNumber(lon, stacks)), NorthFanDone(lon, stacks - 1, k + 1))
  {
    NorthFanPlaces(lon, stacks - 1, k);
    NorthFanListed(lon, stacks, k);
    Advance(indices, slots, [RingVertex(stacks - 1, k, lon), RingVertex(stacks - 1, k + 1, lon), 1 + (stacks - 1) * lon],
            NorthSlots(k), Revolved(lon, stacks - 1, SphereNumber(lon, stacks)),
            NorthFanDone(lon, stacks - 1, k), NorthFanDone(lon, stacks - 1, k + 1));
  }

  method SouthFan(lon: nat, stacks: nat) returns (indices: seq<nat>, ghost slots: seq<Slot>)
    requires lon >= 3 && stacks >= 2
    ensures Progress(indices, slots, Revolved(lon, stacks - 1, SphereNumber(lon, stacks)), BandsDone(lon, stacks - 1, 1, 0))
  {
    indices, slots := [], [];
    for k := 0 to lon
      invariant Progress(indices, slots, Revolved(lon, stacks - 1, SphereNumber(lon, stacks)), SouthFanDone(lon, stacks - 1, k))
    {
      SouthStep(indices, slots, lon, stacks, k);
      indices := indices + [0, RingVertex(1, k + 1, lon), RingVertex(1, k, lon)];
      slots := slots + SouthSlots(k);
    }
    Same(indices, slots, Revolved(lon, stacks - 1, SphereNumber(lon, stacks)),
         SouthFanDone(lon, stacks - 1, lon), BandsDone(lon, stacks - 1, 1, 0));
  }

  method OneBand(start: seq<nat>, ghost startSlots: seq<Slot>, lon: nat, stacks: nat, i: nat)
      returns (indices: seq<nat>, ghost slots: seq<Slot>)
    requires lon >= 3 && 1 <= i < stacks - 1
    requires Progress(start, startSlots, Revolved(lon, stacks - 1, SphereNumber(lon, stacks)), BandsDone(lon, stacks - 1, i, 0))
    ensures Progress(indices, slots, Revolved(lon, stacks - 1, SphereNumber(lon, stacks)), BandsDone(lon, stacks - 1, i + 1, 0))
  {
    indices, slots := start, startSlots;
    for k := 0 to lon
      invariant Progress(indices, slots, Revolved(lon, stacks - 1, SphereNumber(lon, stacks)), BandsDone(lon, stacks - 1, i, k))
    {
      BandStep(indices, slots, lon, stacks, i, k);
      var a, b := RingVertex(i, k, lon), RingVertex(i, k + 1, lon);
      var c, d2 := RingVertex(i + 1, k, lon), RingVertex(i + 1, k + 1, lon);
      indices := indices + [a, b, d2, a, d2, c];
      slots := slots + BandSlots(i, k);
    }
    Same(indices, slots, Revolved(lon, stacks - 1, SphereNumber(lon, stacks)),
         BandsDone(lon, stacks - 1, i, lon), BandsDone(lon, stacks - 1, i + 1, 0));
  }

  method NorthFan(start: seq<nat>, ghost startSlots: seq<Slot>, lon: nat, stacks: nat)
      returns (indices: seq<nat>, ghost slots: seq<Slot>)
    requires lon >= 3 && stacks >= 2
    requires Progress(start, startSlots, Revolved(lon, stacks - 1, SphereNumber(lon, stacks)), BandsDone(lon, stacks - 1, stacks - 1, 0))
    ensures Progress(indices, slots, Revolved(lon, stacks - 1, SphereNumber(lon, stacks)), s => ValidSlot(s, lon, stacks - 1))
  {
    var north, top := 1 + (stacks - 1) * lon, stacks - 1;
    indices, slots := start, startSlots;
    Same(indices, slots, Revolved(lon, stacks - 1, SphereNumber(lon, stacks)),
         BandsDone(lon, stacks - 1, stacks - 1, 0), NorthFanDone(lon, stacks - 1, 0));
    for k := 0 to lon
      invariant Progress(indices, slots, Revolved(lon, stacks - 1, SphereNumber(lon, stacks)), NorthFanDone(lon, stacks - 1, k))
    {
      NorthStep(indices, slots, lon, stacks, k);
      indices := indices + [RingVertex(top, k, lon), RingVertex(top, k + 1, lon), north];
      slots := slots + NorthSlots(k);
    }
    Same(indices, slots, Revolved(lon, stacks - 1, SphereNumber(lon, stacks)),
         NorthFanDone(lon, stacks - 1, lon), s => ValidSlot(s, lon, stacks - 1));
  }

  /** South fan, interior bands, north fan. */
  method SphereIndices(lon: nat, stacks: nat) returns (indices: seq<nat>)
    requires lon >= 3 && stacks >= 2
    ensures ClosedOriented(indices, 2 + (stacks - 1) * lon)
    ensures HasExactly(indices, Revolved(lon, stacks - 1, SphereNumber(lon, stacks)))
  {
    ghost var slots: seq<Slot>;
    indices, slots := SouthFan(lon, stacks);
    for i := 1 to stacks - 1
      invariant Progress(indices, slots, Revolved(lon, stacks - 1, SphereNumber(lon, stacks)), BandsDone(lon, stacks - 1, i, 0))
    {
      indices, slots := OneBand(indices, slots, lon, stacks, i);
    }
    indices, slots := NorthFan(indices, slots, lon, stacks);
    SphereNumbers(lon, stacks);
    CompleteListIsClosed(indices, slots, lon, stacks - 1, SphereNumber(lon, stacks), 2 + (stacks - 1) * lon);
  }

  // ----- torus ---------------------------------------------------------------------------

  function GridVertex(s: nat, t: nat, ns: nat, nt: nat): nat
    requires ns > 0 && nt > 0
  {
    s % ns * nt + t % nt
  }

  predicate InGrid(x: Slot, ns: nat, nt: nat, s: nat, t: nat) {
    ValidCell(x, ns, nt) && (x.ring < s || (x.ring == s && x.k < t))
  }

  lemma QuadListed(s: nat, t: nat, ns: nat, nt: nat)
    requires s < ns && t < nt
    ensures var a, b := GridVertex(s, t, ns, nt), GridVertex(s + 1, t, ns, nt);
            var c, d := GridVertex(s + 1, t + 1, ns, nt), GridVertex(s, t + 1, ns, nt);
            Listed([a, c, b, a, d, c], BandSlots(s, t), Torus(ns, nt))
  {
    ModSucc(s, ns);
    ModSucc(t, nt);
    var a, b := GridVertex(s, t, ns, nt), GridVertex(s + 1, t, ns, nt);
    var c, d := GridVertex(s + 1, t + 1, ns, nt), GridVertex(s, t + 1, ns, nt);
    EdgesOfTwo(a, c, b, a, d, c);
  }

  lemma QuadStep(indices: seq<nat>, slots: seq<Slot>, ns: nat, nt: nat, s: nat, t: nat)
    requires s < ns && t < nt
    requires Progress(indices, slots, Torus(ns, nt), x => InGrid(x, ns, nt, s, t))
    ensures var a, b := GridVertex(s, t, ns, nt), GridVertex(s + 1, t, ns, nt);
            var c, d := GridVertex(s + 1, t + 1, ns, nt), GridVertex(s, t + 1, ns, nt);
            Progress(indices + [a, c, b, a, d, c], slots + BandSlots(s, t), Torus(ns, nt), x => InGrid(x, ns, nt, s, t + 1))
  {
    BandIs(s, t);
    QuadListed(s, t, ns, nt);
    var a, b := GridVertex(s, t, ns, nt), GridVertex(s + 1, t, ns, nt);
    var c, d := GridVertex(s + 1, t + 1, ns, nt), GridVertex(s, t + 1, ns, nt);
    Advance(indices, slots, [a, c, b, a, d, c], BandSlots(s, t), Torus(ns, nt),
            x => InGrid(x, ns, nt, s, t), x => InGrid(x, ns, nt, s, t + 1));
  }

  method TorusIndices(ns: nat, nt: nat) returns (indices: seq<nat>)
    requires ns >= 3 && nt >= 3
    ensures ClosedOriented(indices, ns * nt) && HasExactly(indices, Torus(ns, nt))
  {
    indices := [];
    ghost var slots: seq<Slot> := [];
    for s := 0 to ns
      invariant Progress(indices, slots, Torus(ns, nt), x => InGrid(x, ns, nt, s, 0))
    {
      for t := 0 to nt
        invariant Progress(indices, slots, Torus(ns, nt), x => InGrid(x, ns, nt, s, t))
      {
        QuadStep(indices, slots, ns, nt, s, t);
        var a, b := GridVertex(s, t, ns, nt), GridVertex(s + 1, t, ns, nt);
        var c, d2 := GridVertex(s + 1, t + 1, ns, nt), GridVertex(s, t + 1, ns, nt);
        indices, slots := indices + [a, c, b, a, d2, c], slots + BandSlots(s, t);
      }
      Same(indices, slots, Torus(ns, nt), x => InGrid(x, ns, nt, s, nt), x => InGrid(x, ns, nt, s + 1, 0));
    }
    CompleteTorusIsClosed(indices, slots, ns, nt);
  }

  // ----- what closedness is for ------------------------------------------------------------

  /** A tessellated torus, or any closed buffer, keeps its volume wherever its vertices are moved to. */
  lemma ClosedVolumeMoves(p: seq<Vec3>, q: seq<Vec3>, indices: seq<nat>, d: Vec3)
    requires ClosedOriented(indices, |p|) && |p| == |q|
    requires forall i :: 0 <= i < |p| ==> q[i] == Shift(p[i], d)
    ensures SignedVolume(q, indices) == SignedVolume(p, indices)
  {
    ClosedCancels(indices, |p|);
    TranslatedVolume(p, q, indices, d);
  }
}
