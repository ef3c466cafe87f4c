/** `relation.add` and `relation.remove`: typed edges between objects. */
module RelationCommands {
  import opened Prelude
  import opened ProjectGraph
  import opened Context
  import opened ObjectCommands

  datatype CommandError =
    | Unresolved(why: LookupError)
    | EndpointMustBeText
    | MalformedRelationId
    | NoSuchRelation

  /** What `relation.remove` is given: an id text, read or not, or a type and two endpoints. */
  datatype Target = Identified(id: Option<Id>) | Described(typeId: string, from: Option<string>, to: Option<string>)

  /** Does the endpoint mean object `i`? A text that reads as an id is one; any other text is a name. */
  predicate EndsAt(objects: map<Id, Object>, n: Names, e: Option<string>, i: Id) {
    && e.Some? && i in objects
    && (if n.parseId(e.value).Some? then n.parseId(e.value) == Some(i) else objects[i].name == e.value)
  }

  function ResolveEndpoint(objects: map<Id, Object>, n: Names, e: Option<string>): (r: Result<Id, CommandError>)
    ensures GoodNames(n) && r.Ok? ==> r.value in objects
    ensures GoodNames(n) && r.Ok? ==> EndsAt(objects, n, e, r.value)
    ensures r.Ok? <==> exists i :: EndsAt(objects, n, e, i)
    ensures e.Some? && n.parseId(e.value).Some? ==> (r.Ok? <==> n.parseId(e.value).value in objects)
    ensures e.Some? && n.parseId(e.value).None? ==> (r.Ok? <==> exists i :: i in objects && objects[i].name == e.value)
    ensures e.None? ==> r.Err?
  {
    if e.None? then Err(EndpointMustBeText) else
      var q := if n.parseId(e.value).Some? then Query(Some(e.value), None) else Query(None, Some(e.value));
      var found := ResolveObject(objects, n, q);
      assert forall i :: EndsAt(objects, n, e, i) <==> AskedFor(objects, n, q, i);
      if found.Ok? then Ok(found.value) else Err(Unresolved(found.error))
  }

  predicate Matches(r: Relation, typeId: string, from: Id, to: Id) {
    r.typeId == typeId && r.from == from && r.to == to
  }

  /** `r` has the type, and its ends are what the two endpoints resolve to. */
  ghost predicate Between(objects: map<Id, Object>, n: Names, typeId: string, from: Option<string>, to: Option<string>, r: Relation)
  {
    var a, b := ResolveEndpoint(objects, n, from), ResolveEndpoint(objects, n, to);
    a.Ok? && b.Ok? && Matches(r, typeId, a.value, b.value)
  }

  /** Both endpoints exist by the time the edge is put, so the context never refuses it. */
  method RelationAdd(ctx: CommandContext, n: Names, typeId: string, from: Option<string>, to: Option<string>,
                     properties: map<string, Json>, rid: Id, now: int) returns (r: Result<Id, CommandError>)
    requires ctx.Valid() && rid !in ctx.project.relations && GoodNames(n)
    modifies ctx.project, ctx.txn, ctx`calls
    ensures ctx.Valid() && old(ctx.calls) <= ctx.calls
    ensures var a, b := ResolveEndpoint(old(ctx.project.objects), n, from), ResolveEndpoint(old(ctx.project.objects), n, to);
            if a.Ok? && b.Ok? then
              && r == Ok(rid)
              && ctx.project.State() == old(ctx.project.State()).(relations := old(ctx.project.relations)[
                   rid := Relation(rid, typeId, a.value, b.value, properties, Some(Meta(now, ctx.actor, now, ctx.actor, None, 0)))])
            else
              && r == Err(if a.Err? then a.error else b.error)
              && ctx.project.State() == old(ctx.project.State()) && ctx.txn.ops == old(ctx.txn.ops)
    ensures r.Ok? ==>
      && r.value == rid && rid in ctx.project.relations && ctx.project.relations[rid].typeId == typeId
      && EndsAt(old(ctx.project.objects), n, from, ctx.project.relations[rid].from)
      && EndsAt(old(ctx.project.objects), n, to, ctx.project.relations[rid].to)
    ensures r.Ok? <==>
      (exists i :: EndsAt(old(ctx.project.objects), n, from, i)) && (exists i :: EndsAt(old(ctx.project.objects), n, to, i))
    ensures old(ctx.txn.ops) <= ctx.txn.ops
    ensures Backward(ctx.project.State(), ctx.txn.ops[|old(ctx.txn.ops)|..]) == old(ctx.project.State())
  {
    var a := ResolveEndpoint(ctx.project.objects, n, from);
    if a.Err? {
      ctx.SinceInverts();
      return Err(a.error);
    }
    var b := ResolveEndpoint(ctx.project.objects, n, to);
    if b.Err? {
      ctx.SinceInverts();
      return Err(b.error);
    }
    var rel := Relation(rid, typeId, a.value, b.value, properties, Some(Meta(now, ctx.actor, now, ctx.actor, None, 0)));
    var put := ctx.PutRelation(rel);
    ctx.SinceInverts();
    return Ok(put.value);
  }

  /** Search the edges, in no particular order, for one that matches. */
  method FindRelation(relations: map<Id, Relation>, typeId: string, from: Id, to: Id) returns (r: Option<Id>)
    ensures r.Some? ==> r.value in relations && Matches(relations[r.value], typeId, from, to)
    ensures r.None? ==> forall k :: k in relations ==> !Matches(relations[k], typeId, from, to)
  {
    var order := Enumerate(relations.Keys);
    for i := 0 to |order|
      invariant forall j :: 0 <= j < i ==> !Matches(relations[order[j]], typeId, from, to)
    {
      assert order[i] in order;
      if Matches(relations[order[i]], typeId, from, to) {
        return Some(order[i]);
      }
    }
    forall k | k in relations
      ensures !Matches(relations[k], typeId, from, to)
    {
      assert k in order;
    }
    return None;
  }

  /** Removal by type and endpoints takes exactly one matching edge, if there is any. */
  method RelationRemoveBetween(ctx: CommandContext, n: Names, typeId: string, from: Option<string>, to: Option<string>)
    returns (r: Result<Id, CommandError>)
    requires ctx.Valid() && GoodNames(n)
    modifies ctx.project, ctx.txn, ctx`calls
    ensures ctx.Valid() && old(ctx.calls) <= ctx.calls
    ensures r.Ok? ==>
      && r.value in old(ctx.project.relations)
      && Between(old(ctx.project.objects), n, typeId, from, to, old(ctx.project.relations)[r.value])
      && old(ctx.project.relations)[r.value].typeId == typeId
      && EndsAt(old(ctx.project.objects), n, from, old(ctx.project.relations)[r.value].from)
      && EndsAt(old(ctx.project.objects), n, to, old(ctx.project.relations)[r.value].to)
      && ctx.project.State() == old(ctx.project.State()).(relations := old(ctx.project.relations) - {r.value})
    ensures r.Ok? <==>
      exists k :: k in old(ctx.project.relations) && Between(old(ctx.project.objects), n, typeId, from, to, old(ctx.project.relations)[k])
    ensures r.Err? ==> ctx.project.State() == old(ctx.project.State()) && ctx.txn.ops == old(ctx.txn.ops)
    ensures old(ctx.txn.ops) <= ctx.txn.ops
    ensures Backward(ctx.project.State(), ctx.txn.ops[|old(ctx.txn.ops)|..]) == old(ctx.project.State())
  {
    var a := ResolveEndpoint(ctx.project.objects, n, from);
    if a.Err? {
      ctx.SinceInverts();
      return Err(a.error);
    }
    var b := ResolveEndpoint(ctx.project.objects, n, to);
    if b.Err? {
      ctx.SinceInverts();
      return Err(b.error);
    }
    var found := FindRelation(ctx.project.relations, typeId, a.value, b.value);
    if found.None? {
      ctx.SinceInverts();
      return Err(NoSuchRelation);
    }
    var _ := ctx.RemoveRelation(found.value);
    ctx.SinceInverts();
    return Ok(found.value);
  }

  /** Relation `k` is one that the target means. */
  ghost predicate Meant(g: Graph, n: Names, target: Target, k: Id)
  {
    k in g.relations &&
    match target
    case Identified(id) => id == Some(k)
    case Described(typeId, from, to) => Between(g.objects, n, typeId, from, to, g.relations[k])
  }

  /** The whole command: exactly one edge that is meant goes, if there is any; nothing else changes. */
  method RelationRemove(ctx: CommandContext, n: Names, target: Target) returns (r: Result<Id, CommandError>)
    requires ctx.Valid() && GoodNames(n)
    modifies ctx.project, ctx.txn, ctx`calls
    ensures ctx.Valid() && old(ctx.calls) <= ctx.calls
    ensures r.Ok? <==> exists k :: Meant(old(ctx.project.State()), n, target, k)
    ensures r.Ok? ==>
      && Meant(old(ctx.project.State()), n, target, r.value)
      && ctx.project.State() == old(ctx.project.State()).(relations := old(ctx.project.relations) - {r.value})
    ensures r.Err? ==> ctx.project.State() == old(ctx.project.State()) && ctx.txn.ops == old(ctx.txn.ops)
    ensures target == Identified(None) ==> r == Err(MalformedRelationId)
    ensures old(ctx.txn.ops) <= ctx.txn.ops
    ensures Backward(ctx.project.State(), ctx.txn.ops[|old(ctx.txn.ops)|..]) == old(ctx.project.State())
  {
    ghost var was := ctx.project.State();
    match target
    case Identified(id) =>
      if id.None? {
        ctx.SinceInverts();
        return Err(MalformedRelationId);
      }
      var removed := ctx.RemoveRelation(id.value);
      ctx.SinceInverts();
      assert removed.Ok? ==> Meant(was, n, target, id.value);
      return if removed.Ok? then Ok(id.value) else Err(NoSuchRelation);
    case Described(typeId, from, to) =>
      r := RelationRemoveBetween(ctx, n, typeId, from, to);
      DescribedMeans(was, n, typeId, from, to);
  }

  lemma DescribedMeans(g: Graph, n: Names, typeId: string, from: Option<string>, to: Option<string>)
    ensures forall k :: Meant(g, n, Described(typeId, from, to), k) <==>
      k in g.relations && Between(g.objects, n, typeId, from, to, g.relations[k])
  {
  }
}
