/**
 What commands of several calls do to a verdict that is shown: `relation.remove` on a
 dependency edge, `object.create` under a parent and `object.delete` with its cascade.
 */
module FreshnessCommands {
  import opened Prelude
  import opened ProjectGraph
  import opened Journal
  import opened Calls
  import opened Staleness
  import opened EngineModel
  import opened Requirement
  import opened RequirementTrace
  import opened RequirementCommands
  import opened ObjectCommands
  import opened Freshness
  import opened FreshnessChanges

  // ----- an edge goes away ------------------------------------------------------------------

  /** No other dependency edge of the requirement leads where this one does. */
  ghost predicate SoleEdge(relations: map<Id, Relation>, k: Id, req: Id)
    requires k in relations
  {
    && IsDependency(relations[k], req)
    && forall j :: j in relations && IsDependency(relations[j], req) && relations[j].to == relations[k].to ==> j == k
  }

  lemma EdgeRemovalLeaves(g: Graph, command: string, actor: string, k: Id, now: int)
    requires Sound(g) && k in g.relations
    ensures Left(g, command, actor, [Call.RemoveRelation(k)], now) == g.(relations := g.relations - {k})
  {
    var op := SetRelation(Some(g.relations[k]), None);
    var after := g.(relations := g.relations - {k});
    assert Apply(g, op, true) == after;
    OneCall(g, actor, Call.RemoveRelation(k), op);
    assert TouchedBy([op]) == {} && ToMark(after, {}) == {};
    MarkOpsEffect(command, after, [op], actor, now);
    assert Marked(after, {}, actor, now).objects == after.objects;
  }

  lemma TargetsLeft(relations: map<Id, Relation>, k: Id, req: Id)
    requires k in relations
    ensures DepTargets(relations - {k}, req) == DepTargets(relations, req) - (if SoleEdge(relations, k, req) then {relations[k].to} else {})
  {
    forall t | t in DepTargets(relations, req)
      ensures t in DepTargets(relations - {k}, req) <==> !(SoleEdge(relations, k, req) && t == relations[k].to)
    {
      var j :| j in relations && IsDependency(relations[j], req) && relations[j].to == t;
      if j != k {
        assert j in relations - {k};
      } else if !SoleEdge(relations, k, req) {
        var i :| i in relations && IsDependency(relations[i], req) && relations[i].to == t && i != k;
        assert i in relations - {k};
      }
    }
  }

  /**
   Removing a relation marks nothing and leaves every shown status right. Everything reported
   still has an edge if and only if this was not the only one to an object that is reported.
   */
  lemma EdgeRemovalShows(env: Env, g: Graph, command: string, actor: string, k: Id, now: int, req: Id)
    requires Sound(g) && k in g.relations && req in g.objects && Settled(g.objects[req]) && Honest(env, g, req)
    ensures var after := Left(g, command, actor, [Call.RemoveRelation(k)], now);
            && ShownRight(env, after.objects, req)
            && (Honest(env, after, req) <==>
                  !(SoleEdge(g.relations, k, req) && g.relations[k].to in EvaluateTraced(env, g.objects, g.objects[req]).refs))
  {
    EdgeRemovalLeaves(g, command, actor, k, now);
    TargetsLeft(g.relations, k, req);
    FewerEdges(env, g.objects, DepTargets(g.relations, req), DepTargets(g.relations - {k}, req), req);
  }

  lemma FewerEdges(env: Env, objects: Objects, edges: set<Id>, left: set<Id>, req: Id)
    requires req in objects && Settled(objects[req]) && Current(env, objects, edges, req)
    ensures ShownRight(env, objects, req)
    ensures Current(env, objects, left, req) <==> EvaluateTraced(env, objects, objects[req]).refs <= left
  {
  }

  // ----- an object is created under a parent ------------------------------------------------------

  lemma TwoCallsLeave(g: Graph, command: string, o: Object, rel: Relation, actor: string, now: int)
    requires Sound(g) && !WritesStatus(command) && o.id !in g.objects && rel.id !in g.relations && rel.typeId != DEPENDS_ON
    requires rel.from in g.objects.Keys + {o.id} && rel.to in g.objects.Keys + {o.id}
    ensures var after := StoredAndMarked(g, o, actor, now);
            Left(g, command, actor, [InsertObject(o), PutRelation(rel)], now) == after.(relations := g.relations[rel.id := rel])
  {
    var ops := [SetObject(None, Some(o)), SetRelation(None, Some(rel))];
    var handled := Stored(g, o).(relations := g.relations[rel.id := rel]);
    InsertAndPut(g, o, rel, actor);
    assert TouchedBy(ops) == {o.id} by {
      assert OpObject(ops[0]) == Some(o.id) && OpObject(ops[1]) == None && ops[0] in ops;
    }
    SameToMark(Stored(g, o), handled, rel, {o.id});
    MarkOpsEffect(command, handled, ops, actor, now);
    assert Marked(handled, ToMark(handled, {o.id}), actor, now).objects == StoredAndMarked(g, o, actor, now).objects;
  }

  lemma InsertAndPut(g: Graph, o: Object, rel: Relation, actor: string)
    requires rel.from in g.objects.Keys + {o.id} && rel.to in g.objects.Keys + {o.id}
    ensures CallsOps(g, actor, [InsertObject(o), PutRelation(rel)]) == [SetObject(None, Some(o)), SetRelation(None, Some(rel))]
    ensures Forward(g, [SetObject(None, Some(o)), SetRelation(None, Some(rel))]) == Stored(g, o).(relations := g.relations[rel.id := rel])
  {
    var op, put := SetObject(None, Some(o)), SetRelation(None, Some(rel));
    var mid := Stored(g, o);
    OneCall(g, actor, InsertObject(o), op);
    OneCall(mid, actor, PutRelation(rel), put);
    CallsAppend(g, actor, [InsertObject(o)], PutRelation(rel));
    assert [InsertObject(o)] + [PutRelation(rel)] == [InsertObject(o), PutRelation(rel)] && [op] + [put] == [op, put];
    ForwardConcat(g, [op], [put]);
  }

  lemma SameToMark(a: Graph, b: Graph, rel: Relation, touched: set<Id>)
    requires rel.typeId != DEPENDS_ON && rel.id !in a.relations && b == a.(relations := a.relations[rel.id := rel])
    ensures ToMark(a, touched) == ToMark(b, touched)
  {
    forall k | k in a.relations
      ensures b.relations[k] == a.relations[k]
    {
    }
  }

  lemma SameTargets(relations: map<Id, Relation>, rel: Relation, req: Id)
    requires rel.typeId != DEPENDS_ON && rel.id !in relations
    ensures DepTargets(relations[rel.id := rel], req) == DepTargets(relations, req)
  {
    var more := relations[rel.id := rel];
    forall k | k in relations
      ensures more[k] == relations[k]
    {
    }
  }

  /**
   Creating an object together with an edge that is no dependency, its containment in a parent:
   as for creation alone.
   */
  lemma CreationUnderParentShows(env: Env, g: Graph, command: string, o: Object, rel: Relation, actor: string, now: int, req: Id)
    requires GoodEnv(env) && Steady(env) && Geometric(env) && Sound(g) && !WritesStatus(command)
    requires o.id !in g.objects && rel.id !in g.relations && rel.typeId != DEPENDS_ON
    requires rel.from in g.objects.Keys + {o.id} && rel.to in g.objects.Keys + {o.id}
    requires req in g.objects && Settled(g.objects[req]) && Honest(env, g, req)
    ensures Honest(env, Left(g, command, actor, [InsertObject(o), PutRelation(rel)], now), req)
       <==> !EvaluationFinds(env, g.objects, g.objects[req], o)
  {
    TwoCallsLeave(g, command, o, rel, actor, now);
    SameTargets(g.relations, rel, req);
    NoEdgesIntoFresh(g, o.id, req);
    StoredShows(env, g, o, actor, now, req);
    StoredUnmarked(g, o, actor, now, req);
    FreshMarksNothing(env, g, o, g.objects[req]);
  }

  // ----- several objects go away --------------------------------------------------------------------

  /** The ids that a list of removals names. */
  function Removed(calls: seq<Call>): set<Id> {
    set c | c in calls && c.RemoveObject? :: c.id
  }

  predicate OnlyRemovals(calls: seq<Call>) {
    forall i :: 0 <= i < |calls| ==> calls[i].RemoveObject?
  }

  lemma WithoutNone(g: Graph)
    ensures WithoutAll(g, {}) == g
  {
    assert WithoutAll(g, {}).objects == g.objects && WithoutAll(g, {}).relations == g.relations;
  }

  /** Removing one object, there or not, and then the others. */
  lemma WithoutFirst(g: Graph, id: Id, rest: set<Id>)
    requires Sound(g)
    ensures var after := if id in g.objects then WithoutObject(g, id) else g;
            Sound(after) && WithoutAll(after, rest) == WithoutAll(g, {id} + rest)
  {
    if id in g.objects {
      WithoutOne(g, id, rest);
    } else {
      assert WithoutAll(g, rest).objects == WithoutAll(g, {id} + rest).objects;
      assert WithoutAll(g, rest).relations == WithoutAll(g, {id} + rest).relations;
    }
  }

  lemma WithoutOne(g: Graph, id: Id, rest: set<Id>)
    ensures WithoutAll(WithoutObject(g, id), rest) == WithoutAll(g, {id} + rest)
  {
    var after := WithoutObject(g, id);
    assert WithoutAll(after, rest).objects == WithoutAll(g, {id} + rest).objects;
    assert WithoutAll(after, rest).relations == WithoutAll(g, {id} + rest).relations;
  }

  lemma OneRemoval(g: Graph, actor: string, call: Call)
    requires Sound(g) && call.RemoveObject? && LegalCall(g, actor, call)
    ensures Forward(g, CallOps(g, actor, call)) == (if call.id in g.objects then WithoutObject(g, call.id) else g)
    ensures TouchedBy(CallOps(g, actor, call)) <= {call.id}
  {
    if call.id in g.objects {
      RemoveOps(g, call.id, call.order);
      RelationOpsTouchNothing(g, call.order);
    }
  }

  lemma {:induction false} RemovalsLead(g: Graph, actor: string, calls: seq<Call>)
    requires Sound(g) && OnlyRemovals(calls) && LegalCalls(g, actor, calls)
    ensures Forward(g, CallsOps(g, actor, calls)) == WithoutAll(g, Removed(calls))
    ensures TouchedBy(CallsOps(g, actor, calls)) <= Removed(calls)
    decreases |calls|
  {
    if calls == [] {
      assert Removed(calls) == {};
      WithoutNone(g);
    } else {
      var first, rest := CallOps(g, actor, calls[0]), calls[1..];
      var mid := Forward(g, first);
      OneRemoval(g, actor, calls[0]);
      WithoutFirst(g, calls[0].id, Removed(rest));
      RemovalsLead(mid, actor, rest);
      assert calls == [calls[0]] + rest;
      assert Removed(calls) == {calls[0].id} + Removed(rest);
      ForwardConcat(g, first, CallsOps(mid, actor, rest));
    }
  }

  /** Removals mark nothing, whatever they take: no edge into a removed object is left. */
  lemma RemovalsLeave(g: Graph, command: string, actor: string, calls: seq<Call>, now: int)
    requires Sound(g) && OnlyRemovals(calls) && LegalCalls(g, actor, calls)
    ensures Left(g, command, actor, calls, now) == WithoutAll(g, Removed(calls))
  {
    var ops, after := CallsOps(g, actor, calls), WithoutAll(g, Removed(calls));
    RemovalsLead(g, actor, calls);
    assert Sound(after);
    assert ToMark(after, TouchedBy(ops)) == {};
    MarkOpsEffect(command, after, ops, actor, now);
    assert Marked(after, {}, actor, now).objects == after.objects;
  }

  /** An evaluation is the same without a set of objects if and only if it reported none of them. */
  lemma {:induction false} CascadeTraces(env: Env, objects: Objects, req: Object, ids: set<Id>)
    requires GoodEnv(env) && Steady(env)
    ensures EvaluateTraced(env, objects - ids, req) == EvaluateTraced(env, objects, req)
       <==> EvaluateTraced(env, objects, req).refs !! ids
    decreases ids
  {
    var v := EvaluateTraced(env, objects, req);
    RefsExist(env, objects - ids, req);
    if v.refs !! ids && ids != {} {
      var x :| x in ids;
      assert objects - ids == objects - {x} - (ids - {x});
      DeletionTraces(env, objects, req, x);
      CascadeTraces(env, objects - {x}, req, ids - {x});
    } else if ids == {} {
      assert objects - ids == objects;
    }
  }

  /** The term cannot answer without the objects: nothing else has one of its names. */
  predicate NeedsOneOf(objects: Objects, t: Term, ids: set<Id>) {
    match t
    case Volume(name) => Named(objects, name) <= ids
    case Area(name) => Named(objects, name) <= ids
    case FieldOf(name, _) => Named(objects, name) <= ids
    case DistanceOf(a, b) => Named(objects, a) <= ids || Named(objects, b) <= ids
    case _ => false
  }

  lemma NeededFails(env: Env, objects: Objects, t: Term, ids: set<Id>)
    requires NeedsOneOf(objects, t, ids)
    ensures TermValue(env, objects - ids, t).result.Err?
  {
    forall name | Named(objects, name) <= ids
      ensures Named(objects - ids, name) == {}
    {
    }
  }

  /** A term that reports none of the objects does not miss them. */
  lemma {:induction false} TermWithoutAll(env: Env, objects: Objects, t: Term, ids: set<Id>)
    requires GoodEnv(env) && Steady(env) && TermValue(env, objects, t).refs !! ids
    ensures TermValue(env, objects - ids, t) == TermValue(env, objects, t)
    decreases ids
  {
    if ids == {} {
      assert objects - ids == objects;
    } else {
      var x :| x in ids;
      assert objects - ids == objects - {x} - (ids - {x});
      TermWithout(env, objects, t, x);
      TermWithoutAll(env, objects - {x}, t, ids - {x});
    }
  }

  lemma NeededBreak(env: Env, objects: Objects, req: Object, ids: set<Id>)
    requires GoodEnv(env) && Steady(env)
    requires forall t :: t in Reached(env, objects, req) && !(TermValue(env, objects, t).refs !! ids) ==> NeedsOneOf(objects, t, ids)
    ensures EvaluateTraced(env, objects - ids, req) == EvaluateTraced(env, objects, req)
         || EvaluateTraced(env, objects - ids, req).status == Unknown
  {
    forall t | t in Reached(env, objects, req)
      ensures TermValue(env, objects - ids, t) == TermValue(env, objects, t) || TermValue(env, objects - ids, t).result.Err?
    {
      if TermValue(env, objects, t).refs !! ids {
        TermWithoutAll(env, objects, t, ids);
      } else {
        NeededFails(env, objects, t, ids);
      }
    }
    VerdictBroken(env, objects, objects - ids, req);
  }

  lemma TargetsWithoutAll(g: Graph, ids: set<Id>, req: Id)
    requires req !in ids
    ensures DepTargets(WithoutAll(g, ids).relations, req) == DepTargets(g.relations, req) - ids
  {
    forall i | i in DepTargets(g.relations, req) - ids
      ensures i in DepTargets(WithoutAll(g, ids).relations, req)
    {
      var k :| k in g.relations && IsDependency(g.relations[k], req) && g.relations[k].to == i;
      assert k in WithoutAll(g, ids).relations;
    }
  }

  /**
   Any removals, a cascade among them: what a requirement that is left shows stays right if its
   evaluation reported none of the removed objects. Where every term that reports one needs
   one, that is the whole condition, for the status alone as well.
   */
  lemma CascadeShows(env: Env, g: Graph, command: string, actor: string, calls: seq<Call>, now: int, req: Id)
    requires GoodEnv(env) && Steady(env) && Sound(g) && OnlyRemovals(calls) && LegalCalls(g, actor, calls)
    requires req !in Removed(calls) && req in g.objects && Settled(g.objects[req]) && Honest(env, g, req)
    ensures var after, refs := Left(g, command, actor, calls, now), EvaluateTraced(env, g.objects, g.objects[req]).refs;
            && (refs !! Removed(calls) ==> Honest(env, after, req))
            && ((forall t :: t in Reached(env, g.objects, g.objects[req]) && !(TermValue(env, g.objects, t).refs !! Removed(calls))
                   ==> NeedsOneOf(g.objects, t, Removed(calls)))
                ==> (refs !! Removed(calls) <==> Honest(env, after, req)) && (refs !! Removed(calls) <==> ShownRight(env, after.objects, req)))
  {
    var ids, r := Removed(calls), g.objects[req];
    RemovalsLeave(g, command, actor, calls, now);
    TargetsWithoutAll(g, ids, req);
    assert WithoutAll(g, ids).objects == g.objects - ids;
    CascadeTraces(env, g.objects, r, ids);
    if forall t :: t in Reached(env, g.objects, r) && !(TermValue(env, g.objects, t).refs !! ids) ==> NeedsOneOf(g.objects, t, ids) {
      NeededBreak(env, g.objects, r, ids);
      SameOrUnknown(env, g.objects, g.objects - ids, DepTargets(g.relations, req), req);
    }
  }
}
