/**
 What a command handler can do. A handler reaches the project only through the context
 helpers, so one execution of any handler, builtin or plugin, is a finite list of helper
 calls followed by success or failure. `CallsOps` is the op list that such an execution
 records; the graph it leaves is that list applied forward.
 */
module Calls {
  import opened Prelude
  import opened ProjectGraph
  import opened Journal

  datatype Call =
    | InsertObject(obj: Object)
      /** `edited` is what the caller's closure made of the object, `now` the clock it saw. */
    | UpdateObject(id: Id, edited: Object, now: int)
      /** `order` is the order in which the relation map yielded the attached relations. */
    | RemoveObject(id: Id, order: seq<Id>)
    | PutRelation(rel: Relation)
    | RemoveRelation(rid: Id)
    | Rename(name: string)
    | SetMeta(key: string, value: Json)
      /** A nested command in the same context; a rejected one has made no calls. */
    | RunSub(inner: seq<Call>)

  // ----- recorded ops ------------------------------------------------------

  /** Deleting relations one by one; ids that are not there record nothing. */
  function RelationOps(g: Graph, order: seq<Id>): seq<StateOp>
    decreases |order|
  {
    if order == [] then []
    else if order[0] !in g.relations then RelationOps(g, order[1..])
    else
      var op := SetRelation(Some(g.relations[order[0]]), None);
      [op] + RelationOps(Apply(g, op, true), order[1..])
  }

  function MetaBefore(g: Graph, key: string): Option<Json> {
    if key == PROJECT_NAME_META_KEY then Some(Str(g.name))
    else if key in g.settings then Some(g.settings[key])
    else None
  }

  function CallOps(g: Graph, actor: string, call: Call): seq<StateOp>
    decreases call
  {
    match call
    case InsertObject(obj) => [SetObject(None, Some(obj))]
    case UpdateObject(id, edited, now) =>
      if id in g.objects then [SetObject(Some(g.objects[id]), Some(edited.Touch(actor, now)))] else []
    case RemoveObject(id, order) =>
      if id in g.objects then RelationOps(g, order) + [SetObject(Some(g.objects[id]), None)] else []
    case PutRelation(rel) =>
      if rel.from in g.objects && rel.to in g.objects then [SetRelation(None, Some(rel))] else []
    case RemoveRelation(rid) =>
      if rid in g.relations then [SetRelation(Some(g.relations[rid]), None)] else []
    case Rename(name) => [SetProjectMeta(PROJECT_NAME_META_KEY, Some(Str(g.name)), Some(Str(name)))]
    case SetMeta(key, value) => [SetProjectMeta(key, MetaBefore(g, key), Some(value))]
    case RunSub(inner) => CallsOps(g, actor, inner)
  }

  function CallsOps(g: Graph, actor: string, calls: seq<Call>): seq<StateOp>
    decreases calls
  {
    if calls == [] then [] else
      var first := CallOps(g, actor, calls[0]);
      first + CallsOps(Forward(g, first), actor, calls[1..])
  }

  // ----- what the surroundings guarantee -----------------------------------

  /**
   Ids are freshly minted, an update closure leaves the identity of the object alone, and
   iterating the relation map yields each attached relation once.
   */
  ghost predicate LegalCall(g: Graph, actor: string, call: Call)
    decreases call
  {
    match call
    case InsertObject(obj) => obj.id !in g.objects
    case UpdateObject(id, edited, _) => id in g.objects ==> edited.id == id
    case RemoveObject(id, order) =>
      && Distinct(order)
      && forall r :: r in order <==> r in g.relations && Touches(g.relations[r], id)
    case PutRelation(rel) => rel.id !in g.relations
    case RunSub(inner) => LegalCalls(g, actor, inner)
    case _ => true
  }

  ghost predicate LegalCalls(g: Graph, actor: string, calls: seq<Call>)
    decreases calls
  {
    calls == [] ||
    (LegalCall(g, actor, calls[0]) && LegalCalls(Forward(g, CallOps(g, actor, calls[0])), actor, calls[1..]))
  }

  // ----- every execution leaves a trail ------------------------------------

  lemma {:induction false} RelationOpsTrail(g: Graph, order: seq<Id>)
    requires Sound(g)
    ensures Trail(g, RelationOps(g, order))
    ensures Forward(g, RelationOps(g, order)) == g.(relations := g.relations - (set r | r in order))
    decreases |order|
  {
    if order == [] {
      assert g.relations - (set r | r in order) == g.relations;
    } else if order[0] !in g.relations {
      RelationOpsTrail(g, order[1..]);
      assert g.relations - (set r | r in order) == g.relations - (set r | r in order[1..]);
    } else {
      var op := SetRelation(Some(g.relations[order[0]]), None);
      var g1 := Apply(g, op, true);
      assert Apply(g1, op, false).relations == g.relations;
      RelationOpsTrail(g1, order[1..]);
      var rest := RelationOps(g1, order[1..]);
      assert ([op] + rest)[1..] == rest;
      assert g1.relations - (set r | r in order[1..]) == g.relations - (set r | r in order);
    }
  }

  /** A legal call on a sound graph records ops that invert, through sound states only. */
  lemma SetTrail(g: Graph, o: Object)
    requires Sound(g) && o.id in g.objects
    ensures Trail(g, [SetObject(Some(g.objects[o.id]), Some(o))])
  {
    var op := SetObject(Some(g.objects[o.id]), Some(o));
    TrailOne(g, op);
    assert Apply(Apply(g, op, true), op, false).objects == g.objects;
  }

  lemma DropTrail(g: Graph, rid: Id)
    requires Sound(g) && rid in g.relations
    ensures Trail(g, [SetRelation(Some(g.relations[rid]), None)])
  {
    var op := SetRelation(Some(g.relations[rid]), None);
    TrailOne(g, op);
    assert Apply(Apply(g, op, true), op, false).relations == g.relations;
  }

  lemma MetaTrail(g: Graph, key: string, value: Json)
    requires Sound(g)
    ensures Trail(g, [SetProjectMeta(key, MetaBefore(g, key), Some(value))])
  {
    var op := SetProjectMeta(key, MetaBefore(g, key), Some(value));
    TrailOne(g, op);
    assert Apply(Apply(g, op, true), op, false).settings == g.settings;
  }

  lemma {:induction false} CallTrail(g: Graph, actor: string, call: Call)
    requires Sound(g) && LegalCall(g, actor, call)
    ensures Trail(g, CallOps(g, actor, call))
    decreases call
  {
    match call
    case InsertObject(obj) =>
      TrailOne(g, SetObject(None, Some(obj)));
      assert (g.objects[obj.id := obj]) - {obj.id} == g.objects;
    case UpdateObject(id, edited, now) =>
      if id in g.objects {
        SetTrail(g, edited.Touch(actor, now));
      }
    case RemoveObject(id, order) =>
      if id in g.objects {
        RemoveTrail(g, id, order);
      }
    case PutRelation(rel) =>
      if rel.from in g.objects && rel.to in g.objects {
        TrailOne(g, SetRelation(None, Some(rel)));
        assert (g.relations[rel.id := rel]) - {rel.id} == g.relations;
      }
    case RemoveRelation(rid) =>
      if rid in g.relations {
        DropTrail(g, rid);
      }
    case Rename(name) =>
      TrailOne(g, SetProjectMeta(PROJECT_NAME_META_KEY, Some(Str(g.name)), Some(Str(name))));
    case SetMeta(key, value) =>
      MetaTrail(g, key, value);
    case RunSub(inner) =>
      CallsTrail(g, actor, inner);
  }

  /** Removing an object first removes every relation touching it, so no state in between dangles. */
  lemma RemoveTrail(g: Graph, id: Id, order: seq<Id>)
    requires Sound(g) && id in g.objects
    requires forall r :: r in order <==> r in g.relations && Touches(g.relations[r], id)
    ensures Trail(g, RelationOps(g, order) + [SetObject(Some(g.objects[id]), None)])
    ensures Forward(g, RelationOps(g, order) + [SetObject(Some(g.objects[id]), None)])
         == g.(objects := g.objects - {id}, relations := g.relations - (set r | r in order))
  {
    RelationOpsTrail(g, order);
    var rels := RelationOps(g, order);
    var op := SetObject(Some(g.objects[id]), None);
    var g1 := Forward(g, rels);
    TrailOne(g1, op);
    assert Apply(Apply(g1, op, true), op, false).objects == g1.objects;
    TrailConcat(g, rels, [op]);
    ForwardConcat(g, rels, [op]);
  }

  /** The first of several relation deletions. */
  lemma RelationOpsStep(g: Graph, order: seq<Id>)
    requires order != [] && order[0] in g.relations
    ensures var op := SetRelation(Some(g.relations[order[0]]), None);
            var rest := RelationOps(Apply(g, op, true), order[1..]);
            && RelationOps(g, order) == [op] + rest
            && Forward(g, RelationOps(g, order)) == Forward(Apply(g, op, true), rest)
  {
    var op := SetRelation(Some(g.relations[order[0]]), None);
    var rest := RelationOps(Apply(g, op, true), order[1..]);
    assert ([op] + rest)[1..] == rest;
  }

  /** The graph without one object and without every relation touching it. */
  function WithoutObject(g: Graph, id: Id): Graph {
    g.(objects := g.objects - {id},
       relations := g.relations - (set k | k in g.relations && Touches(g.relations[k], id)))
  }

  lemma RemoveOps(g: Graph, id: Id, order: seq<Id>)
    requires Sound(g) && id in g.objects
    requires forall r :: r in order <==> r in g.relations && Touches(g.relations[r], id)
    ensures var op := SetObject(Some(g.objects[id]), None);
            && Forward(g, RelationOps(g, order) + [op]) == Apply(Forward(g, RelationOps(g, order)), op, true)
            && Forward(g, RelationOps(g, order) + [op]) == WithoutObject(g, id)
  {
    var op := SetObject(Some(g.objects[id]), None);
    var rels := RelationOps(g, order);
    RemoveTrail(g, id, order);
    ForwardConcat(g, rels, [op]);
    TrailOne(Forward(g, rels), op);
    WithoutListed(g, id, order);
  }

  lemma WithoutListed(g: Graph, id: Id, order: seq<Id>)
    requires forall r :: r in order <==> r in g.relations && Touches(g.relations[r], id)
    ensures WithoutObject(g, id) == g.(objects := g.objects - {id}, relations := g.relations - (set r | r in order))
  {
    assert (set k | k in g.relations && Touches(g.relations[k], id)) == (set r | r in order);
  }

  /** Any legal execution of any handler leaves a trail, at whatever call it stops. */
  lemma {:induction false} CallsTrail(g: Graph, actor: string, calls: seq<Call>)
    requires Sound(g) && LegalCalls(g, actor, calls)
    ensures Trail(g, CallsOps(g, actor, calls))
    decreases calls
  {
    if calls != [] {
      var first := CallOps(g, actor, calls[0]);
      CallTrail(g, actor, calls[0]);
      TrailEndsSound(g, first);
      CallsTrail(Forward(g, first), actor, calls[1..]);
      TrailConcat(g, first, CallsOps(Forward(g, first), actor, calls[1..]));
    }
  }

  lemma {:induction false} CallsConcat(g: Graph, actor: string, a: seq<Call>, b: seq<Call>)
    ensures CallsOps(g, actor, a + b) == CallsOps(g, actor, a) + CallsOps(Forward(g, CallsOps(g, actor, a)), actor, b)
    ensures LegalCalls(g, actor, a + b)
       <==> LegalCalls(g, actor, a) && LegalCalls(Forward(g, CallsOps(g, actor, a)), actor, b)
    decreases |a|
  {
    if a == [] {
      assert a + b == b;
    } else {
      var first := CallOps(g, actor, a[0]);
      assert (a + b)[0] == a[0] && (a + b)[1..] == a[1..] + b;
      CallsConcat(Forward(g, first), actor, a[1..], b);
      ForwardConcat(g, first, CallsOps(Forward(g, first), actor, a[1..]));
    }
  }

  /** One more call at the end of an execution. */
  lemma CallsAppend(g: Graph, actor: string, calls: seq<Call>, call: Call)
    ensures CallsOps(g, actor, calls + [call])
         == CallsOps(g, actor, calls) + CallOps(Forward(g, CallsOps(g, actor, calls)), actor, call)
    ensures LegalCalls(g, actor, calls + [call])
       <==> LegalCalls(g, actor, calls) && LegalCall(Forward(g, CallsOps(g, actor, calls)), actor, call)
  {
    CallsConcat(g, actor, calls, [call]);
    var h := Forward(g, CallsOps(g, actor, calls));
    assert [call][1..] == [];
    assert CallsOps(h, actor, [call]) == CallOps(h, actor, call) + [];
  }

  lemma OneCall(g: Graph, actor: string, call: Call, op: StateOp)
    requires CallOps(g, actor, call) == [op]
    ensures CallsOps(g, actor, [call]) == [op] && Forward(g, [op]) == Apply(g, op, true)
    ensures LegalCalls(g, actor, [call]) <==> LegalCall(g, actor, call)
  {
    assert [call][1..] == [] && [op] + [] == [op] && [op][1..] == [];
  }

  // ----- the guarantees are exactly what inversion needs --------------------

  /** Creation undoes cleanly iff the id was not in use. */
  lemma InsertInvertsIff(g: Graph, obj: Object)
    requires Sound(g)
    ensures Inverts(g, SetObject(None, Some(obj))) <==> obj.id !in g.objects
  {
    var back := Apply(Apply(g, SetObject(None, Some(obj)), true), SetObject(None, Some(obj)), false);
    assert obj.id !in back.objects;
    if obj.id !in g.objects {
      assert back.objects == g.objects;
    }
  }

  /**
   An update undoes cleanly iff the closure kept the id, or moved the object onto an entry
   that already held this very value.
   */
  lemma UpdateInvertsIff(g: Graph, id: Id, after: Object)
    requires Sound(g) && id in g.objects
    ensures Inverts(g, SetObject(Some(g.objects[id]), Some(after)))
       <==> after.id == id || (after.id in g.objects && g.objects[after.id] == after)
  {
    var op := SetObject(Some(g.objects[id]), Some(after));
    var back := Apply(Apply(g, op, true), op, false);
    if after.id == id {
      assert back.objects == g.objects;
    } else {
      assert after.id in back.objects && back.objects[after.id] == after;
      if after.id in g.objects && g.objects[after.id] == after {
        assert back.objects == g.objects;
      }
    }
  }

  /** Adding a relation undoes cleanly iff its id was not in use. */
  lemma PutInvertsIff(g: Graph, rel: Relation)
    requires Sound(g)
    ensures Inverts(g, SetRelation(None, Some(rel))) <==> rel.id !in g.relations
  {
    var back := Apply(Apply(g, SetRelation(None, Some(rel)), true), SetRelation(None, Some(rel)), false);
    assert rel.id !in back.relations;
    if rel.id !in g.relations {
      assert back.relations == g.relations;
    }
  }
}
