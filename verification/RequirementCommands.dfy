/** `requirement.evaluate`: write a verdict and make the dependency edges equal the trace. */
module RequirementCommands {
  import opened Prelude
  import opened ProjectGraph
  import opened Context
  import opened Requirement
  import opened RequirementTrace
  import opened RequirementEval

  predicate IsDependency(r: Relation, req: Id) {
    r.typeId == DEPENDS_ON && r.from == req
  }

  /** What a requirement depends on, according to the graph. */
  function DepTargets(relations: map<Id, Relation>, req: Id): set<Id> {
    set k | k in relations && IsDependency(relations[k], req) :: relations[k].to
  }

  /** Everything that is not a dependency edge of `req`. */
  function Others(relations: map<Id, Relation>, req: Id): map<Id, Relation> {
    map k | k in relations && !IsDependency(relations[k], req) :: relations[k]
  }

  /** A relation id nobody uses yet. */
  method Mint(used: set<Id>) returns (id: Id)
    ensures id !in used
  {
    id := 0;
    var rest := used;
    while rest != {}
      invariant rest <= used
      invariant forall x :: x in used && x !in rest ==> x < id
      decreases rest
    {
      var x :| x in rest;
      rest := rest - {x};
      if id <= x {
        id := x + 1;
      }
    }
  }

  /** Remove dependency edges that are no longer wanted, then add the missing ones. */
  method SyncDepEdges(ctx: CommandContext, req: Id, refs: set<Id>, now: int)
    requires ctx.Valid() && req in ctx.project.objects && refs <= ctx.project.objects.Keys
    modifies ctx.project, ctx.txn, ctx`calls
    ensures ctx.Valid() && old(ctx.calls) <= ctx.calls
    ensures ctx.project.State() == old(ctx.project.State()).(relations := ctx.project.relations)
    ensures DepTargets(ctx.project.relations, req) == refs
    ensures Others(ctx.project.relations, req) == Others(old(ctx.project.relations), req)
  {
    RemoveUnwanted(ctx, req, refs);
    AddMissing(ctx, req, refs, now);
  }

  /** The relations left once the unwanted ones among `done` are gone. */
  ghost function Without(relations: map<Id, Relation>, done: seq<Id>, refs: set<Id>): map<Id, Relation> {
    map k | k in relations && !(k in done && relations[k].to !in refs) :: relations[k]
  }

  lemma WithoutNext(relations: map<Id, Relation>, order: seq<Id>, i: nat, refs: set<Id>)
    requires Distinct(order) && i < |order| && order[i] in relations
    ensures var here := Without(relations, order[..i], refs);
            && order[i] in here && here[order[i]] == relations[order[i]]
            && Without(relations, order[..i + 1], refs) == if relations[order[i]].to !in refs then here - {order[i]} else here
  {
    DistinctPrefix(order, i);
  }

  lemma OrderDropped(relations: map<Id, Relation>, order: seq<Id>, refs: set<Id>, req: Id)
    requires forall k :: k in order <==> k in relations && IsDependency(relations[k], req)
    ensures DepTargets(Without(relations, order, refs), req) == DepTargets(relations, req) * refs
    ensures Others(Without(relations, order, refs), req) == Others(relations, req)
  {
    var left := Without(relations, order, refs);
    forall t | t in DepTargets(relations, req) * refs
      ensures t in DepTargets(left, req)
    {
      var k :| k in relations && IsDependency(relations[k], req) && relations[k].to == t;
      assert k in left;
    }
  }

  method RemoveUnwanted(ctx: CommandContext, req: Id, refs: set<Id>)
    requires ctx.Valid()
    modifies ctx.project, ctx.txn, ctx`calls
    ensures ctx.Valid() && old(ctx.calls) <= ctx.calls
    ensures ctx.project.State() == old(ctx.project.State()).(relations := ctx.project.relations)
    ensures DepTargets(ctx.project.relations, req) == DepTargets(old(ctx.project.relations), req) * refs
    ensures Others(ctx.project.relations, req) == Others(old(ctx.project.relations), req)
  {
    ghost var before := ctx.project.relations;
    var existing := Enumerate(set k | k in ctx.project.relations && IsDependency(ctx.project.relations[k], req));
    var i := 0;
    assert Without(before, existing[..0], refs) == before;
    while i < |existing|
      invariant 0 <= i <= |existing|
      invariant ctx.Valid() && old(ctx.calls) <= ctx.calls
      invariant ctx.project.State() == old(ctx.project.State()).(relations := Without(before, existing[..i], refs))
    {
      assert existing[i] in existing;
      WithoutNext(before, existing, i, refs);
      if ctx.project.relations[existing[i]].to !in refs {
        var _ := ctx.RemoveRelation(existing[i]);
      }
      i := i + 1;
    }
    assert existing[..i] == existing;
    OrderDropped(before, existing, refs, req);
  }

  lemma WantNext(have: set<Id>, want: seq<Id>, i: nat)
    requires i < |want|
    ensures want[i] in want
    ensures have + Members(want[..i + 1]) == (have + Members(want[..i])) + (if want[i] in have then {} else {want[i]})
  {
    MembersNext(want, i);
  }

  method AddMissing(ctx: CommandContext, req: Id, refs: set<Id>, now: int)
    requires ctx.Valid() && req in ctx.project.objects && refs <= ctx.project.objects.Keys
    modifies ctx.project, ctx.txn, ctx`calls
    ensures ctx.Valid() && old(ctx.calls) <= ctx.calls
    ensures ctx.project.State() == old(ctx.project.State()).(relations := ctx.project.relations)
    ensures DepTargets(ctx.project.relations, req) == DepTargets(old(ctx.project.relations), req) + refs
    ensures Others(ctx.project.relations, req) == Others(old(ctx.project.relations), req)
  {
    var have := DepTargets(ctx.project.relations, req);
    var want := Sorted(refs);
    var i := 0;
    assert want[..0] == [];
    while i < |want|
      invariant 0 <= i <= |want|
      invariant ctx.Valid() && old(ctx.calls) <= ctx.calls
      invariant ctx.project.State() == old(ctx.project.State()).(relations := ctx.project.relations)
      invariant DepTargets(ctx.project.relations, req) == have + Members(want[..i])
      invariant Others(ctx.project.relations, req) == Others(old(ctx.project.relations), req)
    {
      WantNext(have, want, i);
      if want[i] !in have && want[i] in ctx.project.objects {
        AddOne(ctx, req, want[i], now);
      }
      i := i + 1;
    }
    assert want[..i] == want;
    assert Members(want) == refs;
  }

  method AddOne(ctx: CommandContext, req: Id, to: Id, now: int)
    requires ctx.Valid() && req in ctx.project.objects && to in ctx.project.objects
    modifies ctx.project, ctx.txn, ctx`calls
    ensures ctx.Valid() && old(ctx.calls) <= ctx.calls
    ensures ctx.project.State() == old(ctx.project.State()).(relations := ctx.project.relations)
    ensures DepTargets(ctx.project.relations, req) == DepTargets(old(ctx.project.relations), req) + {to}
    ensures Others(ctx.project.relations, req) == Others(old(ctx.project.relations), req)
  {
    var rid := Mint(ctx.project.relations.Keys);
    var rel := Relation(rid, DEPENDS_ON, req, to, map[], Some(Meta(now, ctx.actor, now, ctx.actor, None, 0)));
    ghost var known := ctx.project.relations;
    var _ := ctx.PutRelation(rel);
    OneMoreEdge(known, rel, req);
  }

  lemma OneMoreEdge(known: map<Id, Relation>, rel: Relation, req: Id)
    requires rel.id !in known && IsDependency(rel, req)
    ensures DepTargets(known[rel.id := rel], req) == DepTargets(known, req) + {rel.to}
    ensures Others(known[rel.id := rel], req) == Others(known, req)
  {
    var more := known[rel.id := rel];
    forall t
      ensures t in DepTargets(more, req) <==> t in DepTargets(known, req) + {rel.to}
    {
      if t in DepTargets(known, req) {
        var k :| k in known && IsDependency(known[k], req) && known[k].to == t;
        assert more[k] == known[k];
      }
      if t == rel.to {
        assert more[rel.id] == rel;
      }
    }
  }

  /** The status component an evaluation writes. */
  function WithVerdict(o: Object, v: Verdict): Object {
    o.(components := o.components[REQUIREMENT_STATUS :=
      Component(REQUIREMENT_STATUS, 1, Obj(map["status" := Str(StatusText(v.status)), "verdict" := Str(v.text)]))])
  }

  /** Evaluate one requirement, write its status, reconcile its edges. */
  method EvaluateOne(ctx: CommandContext, env: Env, id: Id, now: int) returns (r: Result<Verdict, ContextError>)
    requires ctx.Valid() && GoodEnv(env)
    modifies ctx.project, ctx.txn, ctx`calls
    ensures ctx.Valid() && old(ctx.calls) <= ctx.calls
    ensures id !in old(ctx.project.objects) ==>
      r == Err(ObjectNotFound(id)) && ctx.project.State() == old(ctx.project.State())
    ensures id in old(ctx.project.objects) ==>
      var req := old(ctx.project.objects)[id];
      var v := EvaluateTraced(env, old(ctx.project.objects), req);
      && r == Ok(v)
      && ctx.project.State() == old(ctx.project.State()).(
           objects := old(ctx.project.objects)[id := WithVerdict(req, v).Touch(ctx.actor, now)],
           relations := ctx.project.relations)
      && DepTargets(ctx.project.relations, id) == v.refs
      && Others(ctx.project.relations, id) == Others(old(ctx.project.relations), id)
  {
    if id !in ctx.project.objects {
      return Err(ObjectNotFound(id));
    }
    var req := ctx.project.objects[id];
    var v := Evaluate(env, ctx.project.objects, req);
    RefsExist(env, ctx.project.objects, req);
    ctx.ValidIsSound();
    var _ := ctx.UpdateObject(id, o => WithVerdict(o, v), now);
    SyncDepEdges(ctx, id, v.refs, now);
    return Ok(v);
  }

  /** The objects after the listed requirements have been evaluated and written, one after the other. */
  function Written(env: Env, objects: Objects, ids: seq<Id>, actor: string, now: int): (r: Objects)
    ensures r.Keys == objects.Keys
    decreases |ids|
  {
    if ids == [] then objects else
      var before := Written(env, objects, ids[..|ids| - 1], actor, now);
      var id := ids[|ids| - 1];
      if id !in before then before else WithVerdictOf(env, before, id, actor, now)
  }

  function WithVerdictOf(env: Env, objects: Objects, id: Id, actor: string, now: int): (r: Objects)
    requires id in objects
    ensures r.Keys == objects.Keys
  {
    objects[id := WithVerdict(objects[id], EvaluateTraced(env, objects, objects[id])).Touch(actor, now)]
  }

  /** The verdict the requirement at position `i` gets: evaluated with the earlier ones already written. */
  function VerdictAt(env: Env, objects: Objects, ids: seq<Id>, i: nat, actor: string, now: int): Verdict
    requires i < |ids| && ids[i] in objects
  {
    var before := Written(env, objects, ids[..i], actor, now);
    EvaluateTraced(env, before, before[ids[i]])
  }

  /** Everything that is not a dependency edge of one of `ids`. */
  function Unrelated(relations: map<Id, Relation>, ids: seq<Id>): map<Id, Relation> {
    map k | k in relations && !(relations[k].typeId == DEPENDS_ON && relations[k].from in ids) :: relations[k]
  }

  /**
   What `requirement.evaluate` does to a graph: every listed requirement carries the verdict
   of its own evaluation and depends on exactly what that evaluation traced; all other
   objects, all other relations, the name, the settings and the header are as they were.
   */
  ghost predicate Evaluated(env: Env, was: Graph, g: Graph, ids: seq<Id>, verdicts: seq<Verdict>, actor: string, now: int) {
    && |verdicts| == |ids|
    && g == was.(objects := Written(env, was.objects, ids, actor, now), relations := g.relations)
    && Unrelated(g.relations, ids) == Unrelated(was.relations, ids)
    && forall i {:trigger DecidedAt(env, was, g, ids, verdicts, i, actor, now)} :: 0 <= i < |ids| ==> DecidedAt(env, was, g, ids, verdicts, i, actor, now)
  }

  ghost predicate DecidedAt(env: Env, was: Graph, g: Graph, ids: seq<Id>, verdicts: seq<Verdict>, i: nat, actor: string, now: int)
    requires i < |ids| == |verdicts|
  {
    && ids[i] in was.objects
    && verdicts[i] == VerdictAt(env, was.objects, ids, i, actor, now)
    && DepTargets(g.relations, ids[i]) == verdicts[i].refs
  }

  lemma UnrelatedNext(a: map<Id, Relation>, b: map<Id, Relation>, c: map<Id, Relation>, ids: seq<Id>, id: Id)
    requires Unrelated(b, ids) == Unrelated(a, ids) && Others(c, id) == Others(b, id)
    ensures Unrelated(c, ids + [id]) == Unrelated(a, ids + [id])
  {
    forall k
      ensures k in Unrelated(c, ids + [id]) <==> k in Unrelated(a, ids + [id])
      ensures k in Unrelated(c, ids + [id]) ==> c[k] == a[k]
    {
      SameEntry(Unrelated(a, ids), Unrelated(b, ids), k);
      SameEntry(Others(b, id), Others(c, id), k);
    }
  }

  lemma SameEntry(a: map<Id, Relation>, b: map<Id, Relation>, k: Id)
    requires a == b
    ensures k in a <==> k in b
    ensures k in a ==> a[k] == b[k]
  {
  }

  lemma EvaluatedNext(env: Env, was: Graph, h: Graph, g: Graph, ids: seq<Id>, verdicts: seq<Verdict>, id: Id, actor: string, now: int)
    requires Evaluated(env, was, h, ids, verdicts, actor, now) && id !in ids && id in h.objects
    requires g == h.(objects := WithVerdictOf(env, h.objects, id, actor, now), relations := g.relations)
    requires DepTargets(g.relations, id) == EvaluateTraced(env, h.objects, h.objects[id]).refs
    requires Others(g.relations, id) == Others(h.relations, id)
    ensures Evaluated(env, was, g, ids + [id], verdicts + [EvaluateTraced(env, h.objects, h.objects[id])], actor, now)
  {
    var all, vs := ids + [id], verdicts + [EvaluateTraced(env, h.objects, h.objects[id])];
    assert all[..|ids|] == ids;
    UnrelatedNext(was.relations, h.relations, g.relations, ids, id);
    forall i | 0 <= i < |all|
      ensures DecidedAt(env, was, g, all, vs, i, actor, now)
    {
      assert all[..i] == if i < |ids| then ids[..i] else ids;
      if i < |ids| {
        assert DecidedAt(env, was, h, ids, verdicts, i, actor, now);
        assert ids[i] in ids;
        OthersKeepTargets(h.relations, g.relations, id, ids[i]);
      }
    }
  }

  lemma EvaluatedPrefix(env: Env, was: Graph, h: Graph, g: Graph, ids: seq<Id>, i: nat, verdicts: seq<Verdict>, actor: string, now: int)
    requires Distinct(ids) && i < |ids| && Evaluated(env, was, h, ids[..i], verdicts, actor, now) && ids[i] in h.objects
    requires g == h.(objects := WithVerdictOf(env, h.objects, ids[i], actor, now), relations := g.relations)
    requires DepTargets(g.relations, ids[i]) == EvaluateTraced(env, h.objects, h.objects[ids[i]]).refs
    requires Others(g.relations, ids[i]) == Others(h.relations, ids[i])
    ensures Evaluated(env, was, g, ids[..i + 1], verdicts + [EvaluateTraced(env, h.objects, h.objects[ids[i]])], actor, now)
  {
    DistinctPrefix(ids, i);
    assert ids[..i + 1] == ids[..i] + [ids[i]];
    EvaluatedNext(env, was, h, g, ids[..i], verdicts, ids[i], actor, now);
  }

  /** One turn of the handler's loop. */
  method EvaluateNext(ctx: CommandContext, env: Env, targets: seq<Id>, i: nat, now: int, verdicts: seq<Verdict>, ghost was: Graph)
      returns (r: Result<seq<Verdict>, ContextError>)
    requires ctx.Valid() && GoodEnv(env) && Distinct(targets) && i < |targets|
    requires Evaluated(env, was, ctx.project.State(), targets[..i], verdicts, ctx.actor, now)
    modifies ctx.project, ctx.txn, ctx`calls
    ensures ctx.Valid() && old(ctx.calls) <= ctx.calls
    ensures r.Ok? <==> targets[i] in was.objects
    ensures r.Ok? ==> Evaluated(env, was, ctx.project.State(), targets[..i + 1], r.value, ctx.actor, now)
  {
    ghost var h := ctx.project.State();
    assert h.objects.Keys == was.objects.Keys;
    var one := EvaluateOne(ctx, env, targets[i], now);
    if one.Err? {
      return Err(one.error);
    }
    EvaluatedPrefix(env, was, h, ctx.project.State(), targets, i, verdicts, ctx.actor, now);
    return Ok(verdicts + [one.value]);
  }

  /** The handler: requirements one after the other; the recorded ops take everything back. */
  method RequirementEvaluate(ctx: CommandContext, env: Env, targets: seq<Id>, now: int)
      returns (r: Result<seq<Verdict>, ContextError>)
    requires ctx.Valid() && GoodEnv(env) && Distinct(targets)
    modifies ctx.project, ctx.txn, ctx`calls
    ensures ctx.Valid() && old(ctx.calls) <= ctx.calls
    ensures r.Ok? <==> forall i :: 0 <= i < |targets| ==> targets[i] in old(ctx.project.objects)
    ensures r.Ok? ==> Evaluated(env, old(ctx.project.State()), ctx.project.State(), targets, r.value, ctx.actor, now)
    ensures old(ctx.txn.ops) <= ctx.txn.ops
    ensures Backward(ctx.project.State(), ctx.txn.ops[|old(ctx.txn.ops)|..]) == old(ctx.project.State())
  {
    r := EvaluateEach(ctx, env, targets, now);
    ctx.SinceInverts();
  }

  method EvaluateEach(ctx: CommandContext, env: Env, targets: seq<Id>, now: int)
      returns (r: Result<seq<Verdict>, ContextError>)
    requires ctx.Valid() && GoodEnv(env) && Distinct(targets)
    modifies ctx.project, ctx.txn, ctx`calls
    ensures ctx.Valid() && old(ctx.calls) <= ctx.calls
    ensures r.Ok? <==> forall i :: 0 <= i < |targets| ==> targets[i] in old(ctx.project.objects)
    ensures r.Ok? ==> Evaluated(env, old(ctx.project.State()), ctx.project.State(), targets, r.value, ctx.actor, now)
  {
    ghost var was := ctx.project.State();
    EvaluatedNone(env, was, ctx.actor, now);
    r := Ok([]);
    var i := 0;
    while i < |targets| && r.Ok?
      invariant ctx.Valid() && old(ctx.calls) <= ctx.calls && i <= |targets|
      invariant r.Ok? ==> Evaluated(env, was, ctx.project.State(), targets[..i], r.value, ctx.actor, now)
      invariant r.Err? ==> i < |targets| && targets[i] !in was.objects
      decreases |targets| - i, r.Ok?
    {
      r := EvaluateNext(ctx, env, targets, i, now, r.value, was);
      if r.Ok? {
        i := i + 1;
      }
    }
    if r.Ok? {
      assert targets[..i] == targets;
      EvaluatedExist(env, was, ctx.project.State(), targets, r.value, ctx.actor, now);
    }
  }

  lemma EvaluatedExist(env: Env, was: Graph, g: Graph, ids: seq<Id>, verdicts: seq<Verdict>, actor: string, now: int)
    requires Evaluated(env, was, g, ids, verdicts, actor, now)
    ensures forall i :: 0 <= i < |ids| ==> ids[i] in was.objects
  {
    forall i | 0 <= i < |ids|
      ensures ids[i] in was.objects
    {
      assert DecidedAt(env, was, g, ids, verdicts, i, actor, now);
    }
  }

  lemma EvaluatedNone(env: Env, g: Graph, actor: string, now: int)
    ensures Evaluated(env, g, g, [], [], actor, now)
  {
  }

  /** Reconciling the edges of one requirement leaves those of another alone. */
  lemma OthersKeepTargets(a: map<Id, Relation>, b: map<Id, Relation>, req: Id, other: Id)
    requires Others(a, req) == Others(b, req) && other != req
    ensures DepTargets(a, other) == DepTargets(b, other)
  {
    forall k
      ensures k in a && IsDependency(a[k], other) ==> k in b && b[k] == a[k]
      ensures k in b && IsDependency(b[k], other) ==> k in a && a[k] == b[k]
    {
      if k in a && IsDependency(a[k], other) {
        assert k in Others(a, req);
        assert Others(a, req)[k] == Others(b, req)[k];
      }
      if k in b && IsDependency(b[k], other) {
        assert k in Others(b, req);
        assert Others(a, req)[k] == Others(b, req)[k];
      }
    }
  }
}
