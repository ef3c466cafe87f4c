/**
 Two kinds of expression and what is shown of them: one that reads a single field, its own
 status component among them, and one that asks whether there is an object of some type.
 */
module FreshnessExamples {
  import opened Prelude
  import opened ProjectGraph
  import opened Calls
  import opened Staleness
  import opened EngineModel
  import opened ScannerFacts
  import opened Requirement
  import opened RequirementPrinter
  import opened RequirementRoundTrip
  import opened RequirementCommands
  import opened Freshness
  import opened FreshnessChanges

  // ----- an expression that reads one field ---------------------------------------------------

  /** `object(name).component.field`, true when that field is 1. */
  function FieldTree(name: string, component: string, field: string): OrTree {
    LastOr(LastAnd(Alone(FieldT(Bare(name), component, [field]))))
  }

  predicate FieldTreeOk(name: string, component: string, field: string) {
    ArgOk(Bare(name)) && ')' !in name && component != "" && SegmentOk(component) && SegmentOk(field)
  }

  function StatusFor(r: Result<bool, EvalError>): Status {
    match r
    case Ok(true) => Pass
    case Ok(false) => Fail
    case Err(_) => Unknown
  }

  /** The status of a requirement whose expression is a printed tree. */
  lemma TreeStatus(env: Env, objects: Objects, req: Object, e: OrTree)
    requires GoodEnv(env) && OrOk(env, e) && ExpressionOf(req) == OrText(e)
    ensures var v, t := EvaluateTraced(env, objects, req), MeanOr(env, objects, e, 0, MAX_EXPR_DEPTH);
            v.status == StatusFor(t.result) && v.refs == t.refs
  {
    OrFits(env, e);
    TrimTight(OrText(e));
    PrintedMeaning(env, objects, e);
  }

  lemma FieldTreeFits(env: Env, name: string, component: string, field: string)
    requires FieldTreeOk(name, component, field)
    ensures OrOk(env, FieldTree(name, component, field))
  {
    var t := FieldT(Bare(name), component, [field]);
    assert NotOk(env, Alone(t)) && AndOk(env, LastAnd(Alone(t)));
  }

  lemma FieldTreeMeans(env: Env, objects: Objects, name: string, component: string, field: string)
    requires OrOk(env, FieldTree(name, component, field)) && FindNamed(env, objects, name).Some?
    ensures var value := FieldAt(Components(objects, FindNamed(env, objects, name).value), [component] + [field], component + PathText([field]));
            MeanOr(env, objects, FieldTree(name, component, field), 0, MAX_EXPR_DEPTH).result
              == if value.Err? then Err(value.error) else Ok(Compare("==", value.value, Fin(1.0)))
    ensures MeanOr(env, objects, FieldTree(name, component, field), 0, MAX_EXPR_DEPTH).refs == {FindNamed(env, objects, name).value}
  {
    var t := FieldT(Bare(name), component, [field]);
    var id := FindNamed(env, objects, name).value;
    var value := FieldAt(Components(objects, id), [component] + [field], component + PathText([field]));
    assert NotOk(env, Alone(t)) && AndOk(env, LastAnd(Alone(t)));
    assert MeanTerm(env, objects, t) == Traced(value, {id});
    assert MeanNot(env, objects, Alone(t), 0, MAX_EXPR_DEPTH) == CompareTraced("==", Traced(value, {id}), Traced(Ok(Fin(1.0)), {}));
  }

  lemma OneField(components: map<string, Component>, component: string, field: string, path: string)
    requires component in components && components[component].data.Obj?
    ensures var fields := components[component].data.fields;
            FieldAt(components, [component] + [field], path)
              == if field !in fields then Err(BadInput("no path " + path))
                 else if fields[field].Number? then Ok(Fin(fields[field].r)) else Err(BadInput(path + " is not numeric"))
  {
    var data, segments := components[component].data, [component] + [field];
    assert segments[0] == component && segments[1..] == [field] && [field][1..] == [];
    if field in data.fields {
      assert WalkPath(data, [field]) == WalkPath(data.fields[field], []);
    }
  }

  /** In a project of one object: pass when the field is the number 1, unknown when it is no number. */
  lemma FieldTreeStatus(env: Env, o: Object, req: Object, component: string, field: string)
    requires GoodEnv(env) && FieldTreeOk(o.name, component, field) && ExpressionOf(req) == OrText(FieldTree(o.name, component, field))
    requires component in o.components && o.components[component].data.Obj?
    ensures var fields, status := o.components[component].data.fields, EvaluateTraced(env, map[o.id := o], req).status;
            && (field in fields && fields[field] == Number(1.0) ==> status == Pass)
            && (field !in fields || !fields[field].Number? ==> status == Unknown)
    ensures EvaluateTraced(env, map[o.id := o], req).refs == {o.id}
  {
    var objects := map[o.id := o];
    assert Named(objects, o.name) == {o.id};
    FieldTreeFits(env, o.name, component, field);
    FieldTreeMeans(env, objects, o.name, component, field);
    OneField(o.components, component, field, component + PathText([field]));
    TreeStatus(env, objects, req, FieldTree(o.name, component, field));
  }

  // ----- it reads what evaluating it replaces ----------------------------------------------------

  /** Is what it shows what an evaluation says? */
  lemma ShownIsRight(env: Env, objects: Objects, req: Id, shown: Status)
    requires req in objects && StatusOf(objects[req]) == Some(StatusText(shown)) && (shown == Pass || shown == Fail)
    ensures ShownRight(env, objects, req) <==> EvaluateTraced(env, objects, objects[req]).status == shown
  {
    SameWord(shown, EvaluateTraced(env, objects, objects[req]).status);
  }

  /** A requirement whose expression reads a field of its own status component. */
  predicate ReadsItself(o: Object, field: string) {
    && field != "status" && field != "verdict" && FieldTreeOk(o.name, REQUIREMENT_STATUS, field)
    && ExpressionOf(o) == OrText(FieldTree(o.name, REQUIREMENT_STATUS, field))
  }

  /**
   Evaluating such a requirement replaces the status component the expression has just read:
   where that field is 1 it passes, shows "pass", and evaluated once more it is unknown.
   */
  lemma SelfReadingIsNotHonest(env: Env, o: Object, field: string, g: Graph, actor: string, now: int)
    requires GoodEnv(env) && ReadsItself(o, field)
    requires REQUIREMENT_STATUS in o.components && o.components[REQUIREMENT_STATUS].data.Obj?
    requires field in o.components[REQUIREMENT_STATUS].data.fields && o.components[REQUIREMENT_STATUS].data.fields[field] == Number(1.0)
    requires g.objects == StatusWritten(map[o.id := o], o.id, EvaluateTraced(env, map[o.id := o], o), actor, now)
    ensures EvaluateTraced(env, map[o.id := o], o).status == Pass && EvaluateTraced(env, map[o.id := o], o).refs == {o.id}
    ensures StatusOf(g.objects[o.id]) == Some(StatusText(Pass)) && !ShownRight(env, g.objects, o.id)
  {
    var v := EvaluateTraced(env, map[o.id := o], o);
    var after := WithVerdict(o, v).Touch(actor, now);
    FieldTreeStatus(env, o, o, REQUIREMENT_STATUS, field);
    WrittenStatus(o, v, actor, now);
    FieldTreeStatus(env, after, after, REQUIREMENT_STATUS, field);
    assert g.objects == map[o.id := after];
    ShownIsRight(env, g.objects, o.id, Pass);
  }

  // ----- an object is created or deleted --------------------------------------------------------

  /** `exists(k)` */
  function Looking(k: string): OrTree {
    LastOr(LastAnd(Alone(ExistsT(Bare(k)))))
  }

  /** A requirement that asks for objects of type `k`, is none itself and shows a verdict. */
  predicate Looks(q: Object, k: string, shown: Status) {
    && ArgOk(Bare(k)) && q.typeId != k
    && ExpressionOf(q) == OrText(Looking(k)) && StatusOf(q) == Some(StatusText(shown))
  }

  lemma LookingMeans(env: Env, objects: Objects, k: string)
    requires ArgOk(Bare(k))
    ensures OrOk(env, Looking(k))
    ensures var t := MeanOr(env, objects, Looking(k), 0, MAX_EXPR_DEPTH);
            t.result == Ok(OfType(objects, k) != {}) && t.refs == OfType(objects, k)
  {
    var t := ExistsT(Bare(k));
    assert NotOk(env, Alone(t)) && AndOk(env, LastAnd(Alone(t)));
    assert MeanTerm(env, objects, t) == Exists(objects, k);
    var found := if OfType(objects, k) != {} then 1.0 else 0.0;
    assert Compare("==", Fin(found), Fin(1.0)) == (found == 1.0);
    assert MeanNot(env, objects, Alone(t), 0, MAX_EXPR_DEPTH) == CompareTraced("==", Exists(objects, k), Traced(Ok(Fin(1.0)), {}));
  }

  lemma LookerMeans(env: Env, objects: Objects, q: Object, k: string)
    requires GoodEnv(env) && ArgOk(Bare(k)) && ExpressionOf(q) == OrText(Looking(k))
    ensures var v := EvaluateTraced(env, objects, q);
            && v.status == Found(objects, k)
            && v.refs == OfType(objects, k)
  {
    LookingMeans(env, objects, k);
    TreeStatus(env, objects, q, Looking(k));
  }

  function Found(objects: Objects, k: string): Status {
    if OfType(objects, k) == {} then Fail else Pass
  }

  /** What it shows is right exactly when it says what is there, and honest where it also has its edges. */
  lemma LookerShows(env: Env, g: Graph, q: Object, k: string, shown: Status)
    requires GoodEnv(env) && Looks(q, k, shown) && (shown == Pass || shown == Fail)
    requires q.id in g.objects && g.objects[q.id] == q
    ensures ShownRight(env, g.objects, q.id) <==> shown == Found(g.objects, k)
    ensures Honest(env, g, q.id) <==> shown == Found(g.objects, k) && OfType(g.objects, k) <= DepTargets(g.relations, q.id)
  {
    LookerMeans(env, g.objects, q, k);
    ShownIsRight(env, g.objects, q.id, shown);
    LookerHonest(env, g, q, k, shown);
  }

  lemma LookerHonest(env: Env, g: Graph, q: Object, k: string, shown: Status)
    requires Looks(q, k, shown) && (shown == Pass || shown == Fail) && q.id in g.objects && g.objects[q.id] == q
    requires EvaluateTraced(env, g.objects, q).refs == OfType(g.objects, k)
    ensures Honest(env, g, q.id) <==> ShownRight(env, g.objects, q.id) && OfType(g.objects, k) <= DepTargets(g.relations, q.id)
  {
  }

  /**
   For "exists(k)" the exact condition on the status alone: creating an object makes it wrong
   if and only if the object is of that type and "fail" was shown.
   */
  lemma CreationAndLooker(env: Env, g: Graph, q: Object, k: string, shown: Status, s: Object, command: string, actor: string, now: int)
    requires GoodEnv(env) && Looks(q, k, shown) && (shown == Pass || shown == Fail) && Sound(g) && !WritesStatus(command)
    requires q.id in g.objects && g.objects[q.id] == q && s.id !in g.objects && Honest(env, g, q.id)
    ensures ShownRight(env, Left(g, command, actor, [InsertObject(s)], now).objects, q.id) <==> s.typeId != k || shown == Pass
  {
    var after := StoredAndMarked(g, s, actor, now);
    CreationLeaves(g, command, s, actor, now);
    LookerShows(env, g, q, k, shown);
    NoEdgesIntoFresh(g, s.id, q.id);
    StoredUnmarked(g, s, actor, now, q.id);
    StoredKinds(g, s, actor, now, k);
    LookerShows(env, after, q, k, shown);
  }

  lemma StoredKinds(g: Graph, s: Object, actor: string, now: int, k: string)
    requires s.id !in g.objects
    ensures OfType(StoredAndMarked(g, s, actor, now).objects, k) == OfType(g.objects, k) + (if s.typeId == k then {s.id} else {})
  {
    MarkedTable(Stored(g, s), ToMark(Stored(g, s), {s.id}), actor, now);
  }

  /** Deleting an object makes it wrong if and only if "pass" was shown because of that object alone. */
  lemma DeletionAndLooker(env: Env, g: Graph, q: Object, k: string, shown: Status, x: Id, order: seq<Id>, command: string, actor: string, now: int)
    requires GoodEnv(env) && Looks(q, k, shown) && (shown == Pass || shown == Fail) && Sound(g)
    requires x in g.objects && LegalCall(g, actor, RemoveObject(x, order)) && x != q.id
    requires q.id in g.objects && g.objects[q.id] == q && Honest(env, g, q.id)
    ensures ShownRight(env, Left(g, command, actor, [RemoveObject(x, order)], now).objects, q.id) <==> OfType(g.objects, k) != {x}
  {
    var after := WithoutObject(g, x);
    DeletionLeaves(g, command, actor, x, order, now);
    LookerShows(env, g, q, k, shown);
    KindsLeft(g.objects, x, k);
    assert q.id in after.objects && after.objects[q.id] == q;
    LookerShows(env, after, q, k, shown);
  }

  lemma KindsLeft(objects: Objects, x: Id, k: string)
    ensures OfType(objects - {x}, k) == OfType(objects, k) - {x}
    ensures Found(objects - {x}, k) == Found(objects, k) <==> OfType(objects, k) != {x}
  {
    assert OfType(objects - {x}, k) == OfType(objects, k) - {x};
  }
}
