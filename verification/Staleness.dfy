/**
 Dependency-driven staleness: which requirements a command invalidates and what marking
 them does. Marking is itself a list of ordinary update calls, so it is undone with the
 command that caused it.
 */
module Staleness {
  import opened Prelude
  import opened ProjectGraph
  import opened Journal
  import opened Calls
  import opened Text

  const STALE_NOTE := " [stale: dependency changed]"

  /** The `status` string of a requirement-status component, when there is one. */
  function StatusOf(o: Object): Option<string> {
    if REQUIREMENT_STATUS in o.components
      && o.components[REQUIREMENT_STATUS].data.Obj?
      && "status" in o.components[REQUIREMENT_STATUS].data.fields
      && o.components[REQUIREMENT_STATUS].data.fields["status"].Str?
    then Some(o.components[REQUIREMENT_STATUS].data.fields["status"].s)
    else None
  }

  /** Carries a verdict that a change of its inputs would falsify. */
  predicate Settled(o: Object) {
    StatusOf(o) == Some("pass") || StatusOf(o) == Some("fail")
  }

  function StaleData(data: Json): Json {
    if !data.Obj? then data else
      var prev := if "verdict" in data.fields && data.fields["verdict"].Str? then data.fields["verdict"].s else "";
      Obj(data.fields["status" := Str("stale")]["verdict" := Str(Trim(prev + STALE_NOTE))])
  }

  /** The closure `mark_stale_dependents` hands to `update_object`. */
  function MarkStale(o: Object): Object {
    if REQUIREMENT_STATUS !in o.components then o else
      var c := o.components[REQUIREMENT_STATUS];
      o.(components := o.components[REQUIREMENT_STATUS := c.(data := StaleData(c.data))])
  }

  /** Commands that write fresh status themselves. */
  predicate WritesStatus(command: string) {
    command == "requirement.evaluate" || command == "requirement.set_status"
  }

  function OpObject(op: StateOp): Option<Id> {
    if !op.SetObject? then None
    else if op.objAfter.Some? then Some(op.objAfter.value.id)
    else if op.objBefore.Some? then Some(op.objBefore.value.id)
    else None
  }

  /** Ids of the objects an op list sets or deletes. */
  function TouchedBy(ops: seq<StateOp>): set<Id> {
    set op | op in ops && OpObject(op).Some? :: OpObject(op).value
  }

  predicate DependsInto(r: Relation, touched: set<Id>) {
    r.typeId == DEPENDS_ON && r.to in touched
  }

  /** The requirements to mark: touched ones and sources of dependency edges into touched objects. */
  function ToMark(g: Graph, touched: set<Id>): set<Id> {
    var sources := set k | k in g.relations && DependsInto(g.relations[k], touched) :: g.relations[k].from;
    set i | i in sources + touched && i in g.objects && Settled(g.objects[i])
  }

  function MarkCalls(g: Graph, ids: seq<Id>, now: int): seq<Call>
    requires forall i :: i in ids ==> i in g.objects
  {
    if ids == [] then []
    else [Call.UpdateObject(ids[0], MarkStale(g.objects[ids[0]]), now)] + MarkCalls(g, ids[1..], now)
  }

  /** The ops marking appends after a successful command has recorded `ops`. */
  function MarkOps(command: string, g: Graph, ops: seq<StateOp>, actor: string, now: int): seq<StateOp> {
    if WritesStatus(command) then []
    else CallsOps(g, actor, MarkCalls(g, Sorted(ToMark(g, TouchedBy(ops))), now))
  }

  /** The graph after marking `ids`, all at once. */
  function Marked(g: Graph, ids: set<Id>, actor: string, now: int): Graph {
    g.(objects := map i | i in g.objects ::
         if i in ids then MarkStale(g.objects[i]).Touch(actor, now) else g.objects[i])
  }

  /** One mark, on its own. */
  lemma MarkOne(here: Graph, o: Object, actor: string, now: int)
    requires o.id in here.objects && here.objects[o.id] == o
    ensures var call := Call.UpdateObject(o.id, MarkStale(o), now);
            && LegalCall(here, actor, call)
            && Forward(here, CallOps(here, actor, call)) == Marked(here, {o.id}, actor, now)
  {
    var op := SetObject(Some(o), Some(MarkStale(o).Touch(actor, now)));
    TrailOne(here, op);
    assert Apply(here, op, true).objects == Marked(here, {o.id}, actor, now).objects;
  }

  lemma MarkedMore(here: Graph, id: Id, rest: set<Id>, actor: string, now: int)
    requires id !in rest
    ensures Marked(Marked(here, {id}, actor, now), rest, actor, now) == Marked(here, {id} + rest, actor, now)
  {
    assert Marked(Marked(here, {id}, actor, now), rest, actor, now).objects == Marked(here, {id} + rest, actor, now).objects;
  }

  lemma {:induction false} MarkCallsEffect(g: Graph, here: Graph, ids: seq<Id>, actor: string, now: int)
    requires Increasing(ids) && forall i :: i in ids ==> i in g.objects && g.objects[i].id == i
    requires forall i :: i in ids ==> i in here.objects && here.objects[i] == g.objects[i]
    ensures LegalCalls(here, actor, MarkCalls(g, ids, now))
    ensures Forward(here, CallsOps(here, actor, MarkCalls(g, ids, now))) == Marked(here, Members(ids), actor, now)
    decreases |ids|
  {
    if ids == [] {
      assert Marked(here, {}, actor, now).objects == here.objects;
    } else {
      var id, later := ids[0], ids[1..];
      var next := Marked(here, {id}, actor, now);
      MarkOne(here, g.objects[id], actor, now);
      MarkStep(g, here, ids, actor, now);
      MembersHead(ids);
      MarkedMore(here, id, Members(later), actor, now);
      assert id !in later && forall i :: i in later ==> i in ids;
      MarkCallsEffect(g, next, later, actor, now);
    }
  }

  /** The first of several marks. */
  lemma MarkStep(g: Graph, here: Graph, ids: seq<Id>, actor: string, now: int)
    requires ids != [] && (forall i :: i in ids ==> i in g.objects) && ids[0] in here.objects
    ensures var ops := CallOps(here, actor, Call.UpdateObject(ids[0], MarkStale(g.objects[ids[0]]), now));
            var rest := CallsOps(Forward(here, ops), actor, MarkCalls(g, ids[1..], now));
            && CallsOps(here, actor, MarkCalls(g, ids, now)) == ops + rest
            && Forward(here, ops + rest) == Forward(Forward(here, ops), rest)
  {
    var call := Call.UpdateObject(ids[0], MarkStale(g.objects[ids[0]]), now);
    var rest := MarkCalls(g, ids[1..], now);
    assert ([call] + rest)[0] == call && ([call] + rest)[1..] == rest;
    var ops := CallOps(here, actor, call);
    ForwardConcat(here, ops, CallsOps(Forward(here, ops), actor, rest));
  }

  lemma MarkCallsTrail(g: Graph, marked: set<Id>, actor: string, now: int)
    requires Sound(g) && marked <= g.objects.Keys
    ensures LegalCalls(g, actor, MarkCalls(g, Sorted(marked), now))
    ensures Trail(g, CallsOps(g, actor, MarkCalls(g, Sorted(marked), now)))
    ensures Forward(g, CallsOps(g, actor, MarkCalls(g, Sorted(marked), now))) == Marked(g, marked, actor, now)
  {
    var ids := Sorted(marked);
    assert Members(ids) == marked;
    MarkCallsEffect(g, g, ids, actor, now);
    CallsTrail(g, actor, MarkCalls(g, ids, now));
  }

  /** Marking leaves a trail and changes exactly the requirements it selects. */
  lemma MarkOpsEffect(command: string, g: Graph, ops: seq<StateOp>, actor: string, now: int)
    requires Sound(g)
    ensures Trail(g, MarkOps(command, g, ops, actor, now))
    ensures Forward(g, MarkOps(command, g, ops, actor, now))
         == if WritesStatus(command) then g else Marked(g, ToMark(g, TouchedBy(ops)), actor, now)
  {
    if !WritesStatus(command) {
      MarkCallsTrail(g, ToMark(g, TouchedBy(ops)), actor, now);
    }
  }

  lemma MarkStaleStatus(o: Object, actor: string, now: int)
    requires StatusOf(o).Some?
    ensures StatusOf(MarkStale(o).Touch(actor, now)) == Some("stale")
  {
  }

  /**
   After a command that does not write status itself, no object it set and no source of a
   surviving dependency edge into one still carries a verdict; every object not selected,
   and everything that is not an object, is as the handler left it.
   */
  lemma NoStaleVerdictSurvives(command: string, g: Graph, ops: seq<StateOp>, actor: string, now: int)
    requires Sound(g) && !WritesStatus(command)
    ensures var after := Forward(g, MarkOps(command, g, ops, actor, now));
            && after.relations == g.relations && after.name == g.name && after.settings == g.settings
            && after.objects.Keys == g.objects.Keys
            && (forall i :: i in TouchedBy(ops) && i in after.objects ==> !Settled(after.objects[i]))
            && (forall k :: k in after.relations && DependsInto(after.relations[k], TouchedBy(ops))
                  ==> !Settled(after.objects[after.relations[k].from]))
            && (forall i :: i in g.objects && i !in ToMark(g, TouchedBy(ops)) ==> after.objects[i] == g.objects[i])
  {
    var marked := ToMark(g, TouchedBy(ops));
    MarkOpsEffect(command, g, ops, actor, now);
    MarkedIsUnsettled(g, marked, actor, now);
    forall k | k in g.relations && DependsInto(g.relations[k], TouchedBy(ops)) && Settled(g.objects[g.relations[k].from])
      ensures g.relations[k].from in marked
    {
    }
  }

  lemma MarkedIsUnsettled(g: Graph, marked: set<Id>, actor: string, now: int)
    requires forall i :: i in marked ==> i in g.objects && Settled(g.objects[i])
    ensures forall i :: i in g.objects ==>
      if i in marked then !Settled(Marked(g, marked, actor, now).objects[i]) else Marked(g, marked, actor, now).objects[i] == g.objects[i]
  {
    forall i | i in marked
      ensures !Settled(MarkStale(g.objects[i]).Touch(actor, now))
    {
      MarkStaleStatus(g.objects[i], actor, now);
    }
  }
}
