/**
 What creating, updating and deleting an object does to a verdict that is shown. Marking
 follows the edges that were there before the command, so an object that an expression only
 now finds marks nothing, and neither does a deletion, which takes its edges along.
 */
module FreshnessChanges {
  import opened Prelude
  import opened ProjectGraph
  import opened Calls
  import opened Staleness
  import opened EngineModel
  import opened Requirement
  import opened RequirementTrace
  import opened RequirementCommands
  import opened Freshness

  /** Among equal names `find_by_name` keeps its choice when one it did not choose goes away. */
  ghost predicate Steady(env: Env) {
    forall s, x :: SteadyAt(env, s, x)
  }

  predicate SteadyAt(env: Env, s: set<Id>, x: Id) {
    x in s && env.pick(s) != x ==> env.pick(s - {x}) == env.pick(s)
  }

  /** An object that is not the choice can be left out. */
  lemma NotChosen(env: Env, s: set<Id>, x: Id)
    requires GoodEnv(env) && Steady(env) && (s != {} ==> env.pick(s) != x)
    ensures (s - {x} == {}) == (s == {})
    ensures s != {} ==> env.pick(s - {x}) == env.pick(s)
  {
    assert SteadyAt(env, s, x);
    if s != {} {
      assert env.pick(s) in s - {x};
      if x !in s {
        assert s - {x} == s;
      }
    }
  }

  // ----- an object appears, or changes its name or type -------------------------------------

  predicate FoundAs(env: Env, objects: Objects, name: string, o: Object) {
    name == o.name && env.pick(Named(objects, name) + {o.id}) == o.id
  }

  /** Would the term find `o`, were it stored? Decided before it is. */
  predicate Finds(env: Env, objects: Objects, t: Term, o: Object) {
    match t
    case ExistsType(typeId) => typeId == o.typeId
    case CountType(typeId) => typeId == o.typeId
    case NamedExists(name) => FoundAs(env, objects, name, o)
    case Volume(name) => FoundAs(env, objects, name, o)
    case Area(name) => FoundAs(env, objects, name, o)
    case FieldOf(name, _) => FoundAs(env, objects, name, o)
    case DistanceOf(a, b) => FoundAs(env, objects, a, o) || (FindNamed(env, objects, a).Some? && FoundAs(env, objects, b, o))
    case _ => false
  }

  ghost predicate EvaluationFinds(env: Env, objects: Objects, req: Object, o: Object) {
    exists t :: t in Reached(env, objects, req) && Finds(env, objects, t, o)
  }

  function Stored(g: Graph, o: Object): Graph {
    g.(objects := g.objects[o.id := o])
  }

  /** Storing an object and marking what depends on it. */
  function StoredAndMarked(g: Graph, o: Object, actor: string, now: int): Graph {
    Marked(Stored(g, o), ToMark(Stored(g, o), {o.id}), actor, now)
  }

  lemma NameAfter(env: Env, a: Objects, b: Objects, o: Object, name: string)
    requires GoodEnv(env) && Steady(env) && FindNamed(env, a, name) != Some(o.id)
    requires SameTable(a[o.id := o], b)
    ensures FindNamed(env, b, name) == if FoundAs(env, a, name, o) then Some(o.id) else FindNamed(env, a, name)
  {
    var before, more := Named(a, name), Named(a, name) + {o.id};
    NotChosen(env, before, o.id);
    assert Named(b, name) == if name == o.name then more else before - {o.id};
    if name == o.name && env.pick(more) != o.id {
      NotChosen(env, more, o.id);
      assert more - {o.id} == before - {o.id};
    }
  }

  lemma KindAfter(a: Objects, b: Objects, o: Object, typeId: string)
    requires o.id !in OfType(a, typeId) && SameTable(a[o.id := o], b)
    ensures OfType(b, typeId) == OfType(a, typeId) + (if typeId == o.typeId then {o.id} else {})
  {
  }

  /** How lookups that did not answer with the object answer once it is stored. */
  ghost predicate LooksAfter(env: Env, a: Objects, b: Objects, o: Object) {
    && (forall name {:trigger FindNamed(env, b, name)} ::
          FindNamed(env, a, name) != Some(o.id) ==>
          FindNamed(env, b, name) == if FoundAs(env, a, name, o) then Some(o.id) else FindNamed(env, a, name))
    && (forall typeId {:trigger OfType(b, typeId)} ::
          o.id !in OfType(a, typeId) ==>
          OfType(b, typeId) == OfType(a, typeId) + (if typeId == o.typeId then {o.id} else {}))
  }

  lemma StoredLooks(env: Env, a: Objects, b: Objects, o: Object)
    requires GoodEnv(env) && Steady(env) && SameTable(a[o.id := o], b)
    ensures LooksAfter(env, a, b, o)
  {
    forall name | FindNamed(env, a, name) != Some(o.id)
      ensures FindNamed(env, b, name) == if FoundAs(env, a, name, o) then Some(o.id) else FindNamed(env, a, name)
    {
      NameAfter(env, a, b, o, name);
    }
    forall typeId | o.id !in OfType(a, typeId)
      ensures OfType(b, typeId) == OfType(a, typeId) + (if typeId == o.typeId then {o.id} else {})
    {
      KindAfter(a, b, o, typeId);
    }
  }

  lemma DistanceFinds(env: Env, a: Objects, b: Objects, o: Object, x: string, y: string)
    requires LooksAfter(env, a, b, o) && o.id !in Distance(env, a, x, y).refs
    ensures Finds(env, a, DistanceOf(x, y), o) <==> o.id in Distance(env, b, x, y).refs
    ensures !Finds(env, a, DistanceOf(x, y), o) ==> SameAnswers(env, a, b, TermLookups(env, a, DistanceOf(x, y)))
  {
    assert FindNamed(env, b, x) == if FoundAs(env, a, x, o) then Some(o.id) else FindNamed(env, a, x);
    if FindNamed(env, a, x).Some? {
      assert FindNamed(env, b, y) == if FoundAs(env, a, y, o) then Some(o.id) else FindNamed(env, a, y);
    }
  }

  lemma NameFinds(env: Env, a: Objects, b: Objects, o: Object, t: Term)
    requires t.NamedExists? || t.Volume? || t.Area? || t.FieldOf?
    requires LooksAfter(env, a, b, o) && o.id !in TermValue(env, a, t).refs
    ensures Finds(env, a, t, o) <==> o.id in TermValue(env, b, t).refs
    ensures !Finds(env, a, t, o) ==> SameAnswers(env, a, b, TermLookups(env, a, t))
  {
    assert TermValue(env, a, t).refs == if FindNamed(env, a, t.name).Some? then {FindNamed(env, a, t.name).value} else {};
    assert TermValue(env, b, t).refs == if FindNamed(env, b, t.name).Some? then {FindNamed(env, b, t.name).value} else {};
  }

  lemma KindFinds(env: Env, a: Objects, b: Objects, o: Object, t: Term)
    requires t.ExistsType? || t.CountType?
    requires LooksAfter(env, a, b, o) && o.id !in TermValue(env, a, t).refs
    ensures Finds(env, a, t, o) <==> o.id in TermValue(env, b, t).refs
    ensures !Finds(env, a, t, o) ==> SameAnswers(env, a, b, TermLookups(env, a, t))
  {
    assert TermValue(env, a, t).refs == OfType(a, t.typeId) && TermValue(env, b, t).refs == OfType(b, t.typeId);
  }

  /** A term that did not report the object reports it now exactly when it finds it. */
  lemma FoundIsReported(env: Env, a: Objects, b: Objects, o: Object, t: Term)
    requires LooksAfter(env, a, b, o) && o.id !in TermValue(env, a, t).refs
    ensures Finds(env, a, t, o) <==> o.id in TermValue(env, b, t).refs
    ensures !Finds(env, a, t, o) ==> SameAnswers(env, a, b, TermLookups(env, a, t))
  {
    if t.ExistsType? || t.CountType? {
      KindFinds(env, a, b, o, t);
    } else if t.DistanceOf? {
      DistanceFinds(env, a, b, o, t.a, t.b);
    } else if t.NamedExists? || t.Volume? || t.Area? || t.FieldOf? {
      NameFinds(env, a, b, o, t);
    }
  }

  /** The three things that can happen to a term's answer: `o` is found, a read verdict is marked, or nothing. */
  ghost predicate AfterStoring(env: Env, g: Graph, o: Object, b: Objects, t: Term) {
    if Finds(env, g.objects, t, o) then o.id in TermValue(env, b, t).refs
    else if ReadsMarked(env, g, o, t) then TermValue(env, b, t).result.Err?
    else TermValue(env, b, t) == TermValue(env, g.objects, t)
  }

  lemma TermAfter(env: Env, g: Graph, o: Object, actor: string, now: int, t: Term)
    requires GoodEnv(env) && Steady(env) && Geometric(env)
    requires o.id !in TermValue(env, g.objects, t).refs && TermValue(env, g.objects, t).result.Ok?
    ensures AfterStoring(env, g, o, StoredAndMarked(g, o, actor, now).objects, t)
  {
    var a, mid := g.objects, Stored(g, o);
    var marks := ToMark(mid, {o.id});
    var b := Marked(mid, marks, actor, now).objects;
    MarkedTable(mid, marks, actor, now);
    StoredLooks(env, a, b, o);
    FoundIsReported(env, a, b, o, t);
    if !Finds(env, a, t, o) {
      UnfoundAfter(env, g, o, actor, now, t);
    }
  }

  /** Marking, as a term sees it that does not find the stored object. */
  lemma UnfoundAfter(env: Env, g: Graph, o: Object, actor: string, now: int, t: Term)
    requires Geometric(env) && o.id !in TermValue(env, g.objects, t).refs
    requires SameAnswers(env, g.objects, StoredAndMarked(g, o, actor, now).objects, TermLookups(env, g.objects, t))
    ensures var b := StoredAndMarked(g, o, actor, now).objects;
            if ReadsMarked(env, g, o, t) then TermValue(env, b, t).result.Err?
            else TermValue(env, b, t) == TermValue(env, g.objects, t)
  {
    var a, mid := g.objects, Stored(g, o);
    var marks := ToMark(mid, {o.id});
    var b := StoredAndMarked(g, o, actor, now).objects;
    if ReadsMarked(env, g, o, t) {
      var i :| i in marks && i != o.id && TermReadsVerdict(env, a, t, i);
      assert SameAnswer(env, a, b, OfName(t.name));
      MarkedField(mid.objects[i], actor, now, t.path);
    } else {
      MarkedTable(mid, marks, actor, now);
      forall i | i in TermValue(env, a, t).refs
        ensures AlikeBut(Components(a, i), Components(b, i), REQUIREMENT_STATUS)
      {
        assert Components(a, i) == Components(mid.objects, i);
      }
      forall i | Reads(env, a, t, i, REQUIREMENT_STATUS)
        ensures FieldValue(Components(a, i), t.path) == FieldValue(Components(b, i), t.path)
      {
        assert i in TermValue(env, a, t).refs;
        if i in marks {
          assert !OnVerdict(t.path);
          MarkedField(mid.objects[i], actor, now, t.path);
        }
      }
      TermFrame(env, a, b, t, REQUIREMENT_STATUS);
    }
  }

  /** Does the term look for a number in the verdict field of another requirement that gets marked? */
  predicate ReadsMarked(env: Env, g: Graph, o: Object, t: Term) {
    exists i :: i in ToMark(Stored(g, o), {o.id}) && i != o.id && TermReadsVerdict(env, g.objects, t, i)
  }

  /** What makes a shown verdict outdated without a mark on it. */
  ghost predicate Overlooked(env: Env, g: Graph, o: Object, req: Object) {
    exists t :: t in Reached(env, g.objects, req) && (Finds(env, g.objects, t, o) || ReadsMarked(env, g, o, t))
  }

  /**
   A verdict with an answer, and another state in which each of its terms answers as before,
   reports `x` or fails: the verdict there is the same, reports `x` or is unknown.
   */
  lemma VerdictAfter(env: Env, a: Objects, b: Objects, req: Object, x: Id)
    requires forall t :: t in Reached(env, a, req) ==>
      TermValue(env, b, t) == TermValue(env, a, t) || x in TermValue(env, b, t).refs || TermValue(env, b, t).result.Err?
    ensures if Same(env, a, b, Reached(env, a, req)) then EvaluateTraced(env, b, req) == EvaluateTraced(env, a, req)
            else x in EvaluateTraced(env, b, req).refs || EvaluateTraced(env, b, req).status == Unknown
  {
    VerdictTraces(env, b, req);
    VerdictFollows(env, a, b, req, req);
    if !Same(env, a, b, Reached(env, a, req)) {
      var t :| t in Reached(env, a, req) * Reached(env, b, req) && TermValue(env, a, t) != TermValue(env, b, t);
      assert t in Reached(env, b, req);
    }
  }

  /** Where each term answers as before or fails: the verdict is the same or unknown. */
  lemma VerdictBroken(env: Env, a: Objects, b: Objects, req: Object)
    requires forall t :: t in Reached(env, a, req) ==> TermValue(env, b, t) == TermValue(env, a, t) || TermValue(env, b, t).result.Err?
    ensures if Same(env, a, b, Reached(env, a, req)) then EvaluateTraced(env, b, req) == EvaluateTraced(env, a, req)
            else EvaluateTraced(env, b, req).status == Unknown
  {
    VerdictTraces(env, b, req);
    VerdictFollows(env, a, b, req, req);
    if !Same(env, a, b, Reached(env, a, req)) {
      var t :| t in Reached(env, a, req) * Reached(env, b, req) && TermValue(env, a, t) != TermValue(env, b, t);
      assert t in Reached(env, b, req);
    }
  }

  /** The terms of a shown verdict answered, and only about what it has edges to. */
  lemma ShownTerms(env: Env, g: Graph, req: Id, x: Id)
    requires req in g.objects && Settled(g.objects[req]) && Honest(env, g, req) && x !in DepTargets(g.relations, req)
    ensures forall t :: t in Reached(env, g.objects, g.objects[req]) ==>
      x !in TermValue(env, g.objects, t).refs && TermValue(env, g.objects, t).result.Ok?
  {
    var v := EvaluateTraced(env, g.objects, g.objects[req]);
    VerdictTraces(env, g.objects, g.objects[req]);
    forall t | t in Reached(env, g.objects, g.objects[req])
      ensures x !in TermValue(env, g.objects, t).refs
    {
      assert TermValue(env, g.objects, t).refs <= v.refs;
    }
  }

  /**
   An object is stored on which the requirement has no edge yet. What the requirement shows
   stays right, with an edge to everything its evaluation reports, if and only if that
   evaluation would not find the object under its new name and type, and did not read a
   verdict that is now marked.
   */
  lemma StoredShows(env: Env, g: Graph, o: Object, actor: string, now: int, req: Id)
    requires GoodEnv(env) && Steady(env) && Geometric(env)
    requires req in g.objects && Settled(g.objects[req]) && Honest(env, g, req)
    requires req != o.id && o.id !in DepTargets(g.relations, req)
    ensures Honest(env, StoredAndMarked(g, o, actor, now), req) <==> !Overlooked(env, g, o, g.objects[req])
  {
    var b := StoredAndMarked(g, o, actor, now).objects;
    StoredUnmarked(g, o, actor, now, req);
    ShownTerms(env, g, req, o.id);
    forall t | t in Reached(env, g.objects, g.objects[req])
      ensures AfterStoring(env, g, o, b, t)
    {
      TermAfter(env, g, o, actor, now, t);
    }
    StoredCurrent(env, g, o, b, DepTargets(g.relations, req), req);
  }

  /** Where the object is not found, the same is the exact condition for the shown status alone. */
  lemma StoredStatus(env: Env, g: Graph, o: Object, actor: string, now: int, req: Id)
    requires GoodEnv(env) && Steady(env) && Geometric(env)
    requires req in g.objects && Settled(g.objects[req]) && Honest(env, g, req)
    requires req != o.id && o.id !in DepTargets(g.relations, req) && !EvaluationFinds(env, g.objects, g.objects[req], o)
    ensures ShownRight(env, StoredAndMarked(g, o, actor, now).objects, req) <==> !Overlooked(env, g, o, g.objects[req])
  {
    var a, b := g.objects, StoredAndMarked(g, o, actor, now).objects;
    StoredUnmarked(g, o, actor, now, req);
    ShownTerms(env, g, req, o.id);
    forall t | t in Reached(env, a, a[req])
      ensures AfterStoring(env, g, o, b, t)
    {
      TermAfter(env, g, o, actor, now, t);
    }
    StoredTerms(env, g, o, b, a[req]);
    VerdictBroken(env, a, b, a[req]);
    SameOrUnknown(env, a, b, DepTargets(g.relations, req), req);
  }

  lemma SameOrUnknown(env: Env, a: Objects, b: Objects, edges: set<Id>, req: Id)
    requires req in a && req in b && b[req] == a[req] && Settled(a[req]) && Current(env, a, edges, req)
    requires EvaluateTraced(env, b, b[req]) == EvaluateTraced(env, a, a[req]) || EvaluateTraced(env, b, b[req]).status == Unknown
    ensures ShownRight(env, b, req) <==> EvaluateTraced(env, b, b[req]) == EvaluateTraced(env, a, a[req])
  {
    ShownKnown(env, a, edges, req);
    SameWord(EvaluateTraced(env, a, a[req]).status, EvaluateTraced(env, b, b[req]).status);
  }

  lemma StoredCurrent(env: Env, g: Graph, o: Object, b: Objects, edges: set<Id>, req: Id)
    requires req in g.objects && req in b && b[req] == g.objects[req] && Settled(g.objects[req]) && Current(env, g.objects, edges, req)
    requires o.id !in edges
    requires forall t :: t in Reached(env, g.objects, g.objects[req]) ==>
      o.id !in TermValue(env, g.objects, t).refs && TermValue(env, g.objects, t).result.Ok? && AfterStoring(env, g, o, b, t)
    ensures Current(env, b, edges, req) <==> !Overlooked(env, g, o, g.objects[req])
  {
    StoredTerms(env, g, o, b, g.objects[req]);
    VerdictAfter(env, g.objects, b, g.objects[req], o.id);
    CurrentAfter(env, g.objects, b, edges, req, o.id);
  }

  lemma CurrentAfter(env: Env, a: Objects, b: Objects, edges: set<Id>, req: Id, x: Id)
    requires req in a && req in b && b[req] == a[req] && Settled(a[req]) && Current(env, a, edges, req)
    requires EvaluateTraced(env, b, b[req]) == EvaluateTraced(env, a, a[req])
          || (x in EvaluateTraced(env, b, b[req]).refs && x !in edges) || EvaluateTraced(env, b, b[req]).status == Unknown
    ensures Current(env, b, edges, req) <==> EvaluateTraced(env, b, b[req]) == EvaluateTraced(env, a, a[req])
  {
  }

  lemma StoredTerms(env: Env, g: Graph, o: Object, b: Objects, req: Object)
    requires forall t :: t in Reached(env, g.objects, req) ==>
      o.id !in TermValue(env, g.objects, t).refs && TermValue(env, g.objects, t).result.Ok? && AfterStoring(env, g, o, b, t)
    ensures Same(env, g.objects, b, Reached(env, g.objects, req)) <==> !Overlooked(env, g, o, req)
    ensures forall t :: t in Reached(env, g.objects, req) ==>
      TermValue(env, b, t) == TermValue(env, g.objects, t) || o.id in TermValue(env, b, t).refs || TermValue(env, b, t).result.Err?
  {
  }

  lemma StoredUnmarked(g: Graph, o: Object, actor: string, now: int, req: Id)
    requires req in g.objects && req != o.id && o.id !in DepTargets(g.relations, req)
    ensures StoredAndMarked(g, o, actor, now).objects[req] == g.objects[req]
    ensures StoredAndMarked(g, o, actor, now).relations == g.relations
  {
    var mid := Stored(g, o);
    if req in ToMark(mid, {o.id}) {
      var k :| k in mid.relations && DependsInto(mid.relations[k], {o.id}) && mid.relations[k].from == req;
      assert IsDependency(mid.relations[k], req);
    }
  }

  // ----- the commands that do this -------------------------------------------------------------

  lemma OneOpLeaves(g: Graph, command: string, actor: string, call: Call, now: int, before: Option<Object>, o: Object)
    requires Sound(g) && !WritesStatus(command) && CallOps(g, actor, call) == [SetObject(before, Some(o))]
    ensures Left(g, command, actor, [call], now) == StoredAndMarked(g, o, actor, now)
  {
    var op := SetObject(before, Some(o));
    assert [call][1..] == [] && [op] + [] == [op] && [op][1..] == [];
    assert CallsOps(g, actor, [call]) == [op];
    assert Forward(g, [op]) == Stored(g, o);
    assert TouchedBy([op]) == {o.id} by {
      assert OpObject(op) == Some(o.id);
    }
    MarkOpsEffect(command, Stored(g, o), [op], actor, now);
  }

  lemma CreationLeaves(g: Graph, command: string, o: Object, actor: string, now: int)
    requires Sound(g) && !WritesStatus(command)
    ensures Left(g, command, actor, [InsertObject(o)], now) == StoredAndMarked(g, o, actor, now)
  {
    OneOpLeaves(g, command, actor, InsertObject(o), now, None, o);
  }

  lemma NoEdgesIntoFresh(g: Graph, x: Id, req: Id)
    requires Sound(g) && x !in g.objects
    ensures x !in DepTargets(g.relations, req)
  {
  }

  /** What honesty and its absence say of a requirement that still shows its verdict. */
  lemma HonestMeans(env: Env, g: Graph, req: Id)
    requires req in g.objects
    ensures Honest(env, g, req) ==> ShownRight(env, g.objects, req)
    ensures !Honest(env, g, req) ==>
      !ShownRight(env, g.objects, req) || !(EvaluateTraced(env, g.objects, g.objects[req]).refs <= DepTargets(g.relations, req))
  {
  }

  /**
   Creating an object: what any other requirement shows stays right, with an edge to
   everything its evaluation reports, if and only if that evaluation asks neither for that
   type nor for that name. Nothing is marked.
   */
  lemma CreationShows(env: Env, g: Graph, command: string, o: Object, actor: string, now: int, req: Id)
    requires GoodEnv(env) && Steady(env) && Geometric(env) && Sound(g) && !WritesStatus(command)
    requires o.id !in g.objects && req in g.objects && Settled(g.objects[req]) && Honest(env, g, req)
    ensures Honest(env, Left(g, command, actor, [InsertObject(o)], now), req) <==> !EvaluationFinds(env, g.objects, g.objects[req], o)
  {
    CreationLeaves(g, command, o, actor, now);
    NoEdgesIntoFresh(g, o.id, req);
    StoredShows(env, g, o, actor, now, req);
    FreshMarksNothing(env, g, o, g.objects[req]);
  }

  /**
   The shown status alone: not to be found is enough for it to stay right. An object that is
   found makes it wrong, or something is reported without an edge; `FreshnessStory` has both.
   */
  lemma CreationShowsStatus(env: Env, g: Graph, command: string, o: Object, actor: string, now: int, req: Id)
    requires GoodEnv(env) && Steady(env) && Geometric(env) && Sound(g) && !WritesStatus(command)
    requires o.id !in g.objects && req in g.objects && Settled(g.objects[req]) && Honest(env, g, req)
    ensures var after := Left(g, command, actor, [InsertObject(o)], now).objects;
            if !EvaluationFinds(env, g.objects, g.objects[req], o) then ShownRight(env, after, req)
            else !ShownRight(env, after, req) || !(EvaluateTraced(env, after, g.objects[req]).refs <= DepTargets(g.relations, req))
  {
    CreationShows(env, g, command, o, actor, now, req);
    CreationLeaves(g, command, o, actor, now);
    NoEdgesIntoFresh(g, o.id, req);
    StoredUnmarked(g, o, actor, now, req);
    HonestMeans(env, StoredAndMarked(g, o, actor, now), req);
  }

  lemma FreshMarksNothing(env: Env, g: Graph, o: Object, req: Object)
    requires Sound(g) && o.id !in g.objects
    ensures Overlooked(env, g, o, req) <==> EvaluationFinds(env, g.objects, req, o)
  {
    assert ToMark(Stored(g, o), {o.id}) <= {o.id};
  }

  /**
   Updating an object, renaming and retyping included: what a requirement shows is marked, or
   stays right with an edge to everything its evaluation reports, if and only if it is the
   updated one, has an edge to it, or overlooks nothing.
   */
  lemma UpdateShows(env: Env, g: Graph, command: string, edited: Object, actor: string, now: int, req: Id)
    requires GoodEnv(env) && Steady(env) && Geometric(env) && Sound(g) && !WritesStatus(command)
    requires edited.id in g.objects && req in g.objects && Settled(g.objects[req]) && Honest(env, g, req)
    ensures Honest(env, Left(g, command, actor, [Call.UpdateObject(edited.id, edited, now)], now), req) <==>
            req == edited.id || edited.id in DepTargets(g.relations, req) || !Overlooked(env, g, edited.Touch(actor, now), g.objects[req])
  {
    UpdateLeaves(g, command, edited, actor, now);
    UpdatedShows(env, g, edited.Touch(actor, now), actor, now, req);
  }

  /**
   The shown status alone: enough for it to stay right or be marked, and, where the evaluation
   does not find the object under its new name and type, exactly enough.
   */
  lemma UpdateShowsStatus(env: Env, g: Graph, command: string, edited: Object, actor: string, now: int, req: Id)
    requires GoodEnv(env) && Steady(env) && Geometric(env) && Sound(g) && !WritesStatus(command)
    requires edited.id in g.objects && req in g.objects && Settled(g.objects[req]) && Honest(env, g, req)
    ensures var after := Left(g, command, actor, [Call.UpdateObject(edited.id, edited, now)], now).objects;
            var o := edited.Touch(actor, now);
            if req == edited.id || edited.id in DepTargets(g.relations, req) || !Overlooked(env, g, o, g.objects[req])
            then ShownRight(env, after, req)
            else if EvaluationFinds(env, g.objects, g.objects[req], o)
            then !ShownRight(env, after, req) || !(EvaluateTraced(env, after, g.objects[req]).refs <= DepTargets(g.relations, req))
            else !ShownRight(env, after, req)
  {
    UpdateLeaves(g, command, edited, actor, now);
    UpdatedStatus(env, g, edited.Touch(actor, now), actor, now, req);
  }

  lemma UpdatedStatus(env: Env, g: Graph, o: Object, actor: string, now: int, req: Id)
    requires GoodEnv(env) && Steady(env) && Geometric(env)
    requires req in g.objects && Settled(g.objects[req]) && Honest(env, g, req)
    ensures var after := StoredAndMarked(g, o, actor, now).objects;
            if req == o.id || o.id in DepTargets(g.relations, req) || !Overlooked(env, g, o, g.objects[req])
            then ShownRight(env, after, req)
            else if EvaluationFinds(env, g.objects, g.objects[req], o)
            then !ShownRight(env, after, req) || !(EvaluateTraced(env, after, g.objects[req]).refs <= DepTargets(g.relations, req))
            else !ShownRight(env, after, req)
  {
    UpdatedShows(env, g, o, actor, now, req);
    if req != o.id && o.id !in DepTargets(g.relations, req) {
      StoredUnmarked(g, o, actor, now, req);
      HonestMeans(env, StoredAndMarked(g, o, actor, now), req);
      if !EvaluationFinds(env, g.objects, g.objects[req], o) {
        StoredStatus(env, g, o, actor, now, req);
      }
    } else {
      DependentIsMarked(g, o, actor, now, req);
    }
  }

  lemma UpdateLeaves(g: Graph, command: string, edited: Object, actor: string, now: int)
    requires Sound(g) && !WritesStatus(command) && edited.id in g.objects
    ensures Left(g, command, actor, [Call.UpdateObject(edited.id, edited, now)], now) == StoredAndMarked(g, edited.Touch(actor, now), actor, now)
  {
    OneOpLeaves(g, command, actor, Call.UpdateObject(edited.id, edited, now), now, Some(g.objects[edited.id]), edited.Touch(actor, now));
  }

  lemma UpdatedShows(env: Env, g: Graph, o: Object, actor: string, now: int, req: Id)
    requires GoodEnv(env) && Steady(env) && Geometric(env)
    requires req in g.objects && Settled(g.objects[req]) && Honest(env, g, req)
    ensures Honest(env, StoredAndMarked(g, o, actor, now), req) <==>
            req == o.id || o.id in DepTargets(g.relations, req) || !Overlooked(env, g, o, g.objects[req])
  {
    if req == o.id || o.id in DepTargets(g.relations, req) {
      DependentIsMarked(g, o, actor, now, req);
    } else {
      StoredShows(env, g, o, actor, now, req);
    }
  }

  lemma DependentIsMarked(g: Graph, o: Object, actor: string, now: int, req: Id)
    requires req in g.objects && (req == o.id || o.id in DepTargets(g.relations, req))
    ensures !Settled(StoredAndMarked(g, o, actor, now).objects[req])
  {
    var mid := Stored(g, o);
    var marks := ToMark(mid, {o.id});
    if req != o.id {
      var k :| k in g.relations && IsDependency(g.relations[k], req) && g.relations[k].to == o.id;
      assert DependsInto(mid.relations[k], {o.id});
    }
    MarkedIsUnsettled(mid, marks, actor, now);
  }

  // ----- an object goes away -----------------------------------------------------------------------

  /** The term cannot answer without the object: nothing else has its name. */
  predicate Needs(objects: Objects, t: Term, x: Id) {
    match t
    case Volume(name) => Named(objects, name) == {x}
    case Area(name) => Named(objects, name) == {x}
    case FieldOf(name, _) => Named(objects, name) == {x}
    case DistanceOf(a, b) => Named(objects, a) == {x} || Named(objects, b) == {x}
    case _ => false
  }

  lemma AbsentName(env: Env, objects: Objects, name: string, x: Id)
    requires GoodEnv(env) && Steady(env)
    ensures FindNamed(env, objects, name) != Some(x) ==> FindNamed(env, objects - {x}, name) == FindNamed(env, objects, name)
    ensures Named(objects, name) == {x} ==> FindNamed(env, objects - {x}, name) == None
  {
    assert Named(objects - {x}, name) == Named(objects, name) - {x};
    if FindNamed(env, objects, name) != Some(x) {
      NotChosen(env, Named(objects, name), x);
    }
  }

  /** A term that does not report the object does not miss it; one that needs it fails. */
  lemma TermWithout(env: Env, objects: Objects, t: Term, x: Id)
    requires GoodEnv(env) && Steady(env)
    ensures x !in TermValue(env, objects, t).refs ==> TermValue(env, objects - {x}, t) == TermValue(env, objects, t)
    ensures Needs(objects, t, x) ==> TermValue(env, objects - {x}, t).result.Err?
  {
    match t
    case ExistsType(typeId) => KindWithout(objects, typeId, x);
    case CountType(typeId) => KindWithout(objects, typeId, x);
    case NamedExists(name) => AbsentName(env, objects, name, x);
    case Volume(name) => AbsentName(env, objects, name, x);
    case Area(name) => AbsentName(env, objects, name, x);
    case FieldOf(name, _) => AbsentName(env, objects, name, x);
    case DistanceOf(a, b) => DistanceWithout(env, objects, a, b, x);
    case _ =>
  }

  lemma KindWithout(objects: Objects, typeId: string, x: Id)
    ensures x !in OfType(objects, typeId) ==> OfType(objects - {x}, typeId) == OfType(objects, typeId)
  {
  }

  lemma DistanceWithout(env: Env, objects: Objects, a: string, b: string, x: Id)
    requires GoodEnv(env) && Steady(env)
    ensures x !in Distance(env, objects, a, b).refs ==> Distance(env, objects - {x}, a, b) == Distance(env, objects, a, b)
    ensures Needs(objects, DistanceOf(a, b), x) ==> Distance(env, objects - {x}, a, b).result.Err?
  {
    AbsentName(env, objects, a, x);
    AbsentName(env, objects, b, x);
  }

  lemma ReportsOthers(env: Env, objects: Objects, req: Object, x: Id)
    requires GoodEnv(env)
    ensures x !in EvaluateTraced(env, objects - {x}, req).refs
  {
    RefsExist(env, objects - {x}, req);
  }

  /** An evaluation is the same without the object, trace included, if and only if it did not report it. */
  lemma DeletionTraces(env: Env, objects: Objects, req: Object, x: Id)
    requires GoodEnv(env) && Steady(env)
    ensures EvaluateTraced(env, objects - {x}, req) == EvaluateTraced(env, objects, req)
       <==> x !in EvaluateTraced(env, objects, req).refs
  {
    var v := EvaluateTraced(env, objects, req);
    ReportsOthers(env, objects, req, x);
    VerdictTraces(env, objects, req);
    VerdictFollows(env, objects, objects - {x}, req, req);
    if x !in v.refs {
      forall t | t in Reached(env, objects, req)
        ensures TermValue(env, objects, t) == TermValue(env, objects - {x}, t)
      {
        assert TermValue(env, objects, t).refs <= v.refs;
        TermWithout(env, objects, t, x);
      }
    }
  }

  lemma DeletionLeaves(g: Graph, command: string, actor: string, x: Id, order: seq<Id>, now: int)
    requires Sound(g) && x in g.objects && LegalCall(g, actor, RemoveObject(x, order))
    ensures Left(g, command, actor, [RemoveObject(x, order)], now) == WithoutObject(g, x)
  {
    var ops := RelationOps(g, order) + [SetObject(Some(g.objects[x]), None)];
    var after := WithoutObject(g, x);
    assert [RemoveObject(x, order)][1..] == [] && ops + [] == ops;
    assert CallsOps(g, actor, [RemoveObject(x, order)]) == ops;
    RemoveOps(g, x, order);
    RelationOpsTouchNothing(g, order);
    assert TouchedBy(ops) <= {x};
    assert Sound(after);
    assert ToMark(after, TouchedBy(ops)) == {};
    MarkOpsEffect(command, after, ops, actor, now);
    assert Marked(after, {}, actor, now).objects == after.objects;
  }

  lemma {:induction false} RelationOpsTouchNothing(g: Graph, order: seq<Id>)
    ensures forall op :: op in RelationOps(g, order) ==> OpObject(op) == None
    decreases |order|
  {
    if order != [] {
      if order[0] !in g.relations {
        RelationOpsTouchNothing(g, order[1..]);
      } else {
        RelationOpsTouchNothing(Apply(g, SetRelation(Some(g.relations[order[0]]), None), true), order[1..]);
      }
    }
  }

  lemma TargetsWithout(g: Graph, x: Id, req: Id)
    requires req != x
    ensures DepTargets(WithoutObject(g, x).relations, req) == DepTargets(g.relations, req) - {x}
  {
    forall i | i in DepTargets(g.relations, req) - {x}
      ensures i in DepTargets(WithoutObject(g, x).relations, req)
    {
      var k :| k in g.relations && IsDependency(g.relations[k], req) && g.relations[k].to == i;
      assert k in WithoutObject(g, x).relations;
    }
  }

  /**
   Deleting an object marks nothing, its edges being gone. What another requirement shows
   stays right, with an edge to everything its evaluation reports, if that evaluation did not
   report the object; if it did, when it answers the same without it and has the edges for
   that answer. For the shown status alone the edges do not matter.
   */
  lemma DeletionShows(env: Env, g: Graph, command: string, actor: string, x: Id, order: seq<Id>, now: int, req: Id)
    requires GoodEnv(env) && Steady(env) && Sound(g) && x in g.objects && LegalCall(g, actor, RemoveObject(x, order))
    requires req != x && req in g.objects && Settled(g.objects[req]) && Honest(env, g, req)
    ensures var v, v' := EvaluateTraced(env, g.objects, g.objects[req]), EvaluateTraced(env, g.objects - {x}, g.objects[req]);
            Honest(env, Left(g, command, actor, [RemoveObject(x, order)], now), req) <==>
            x !in v.refs || (v'.status == v.status && v'.refs <= DepTargets(g.relations, req))
    ensures ShownRight(env, Left(g, command, actor, [RemoveObject(x, order)], now).objects, req) <==>
            EvaluateTraced(env, g.objects - {x}, g.objects[req]).status == EvaluateTraced(env, g.objects, g.objects[req]).status
  {
    DeletionLeaves(g, command, actor, x, order, now);
    TargetsWithout(g, x, req);
    CurrentWithout(env, g.objects, DepTargets(g.relations, req), x, req);
  }

  lemma CurrentWithout(env: Env, objects: Objects, edges: set<Id>, x: Id, req: Id)
    requires GoodEnv(env) && Steady(env) && req != x && req in objects && Settled(objects[req]) && Current(env, objects, edges, req)
    ensures var v, v' := EvaluateTraced(env, objects, objects[req]), EvaluateTraced(env, objects - {x}, objects[req]);
            && (Current(env, objects - {x}, edges - {x}, req) <==> x !in v.refs || (v'.status == v.status && v'.refs <= edges))
            && (ShownRight(env, objects - {x}, req) <==> v'.status == v.status)
  {
    var r, b := objects[req], objects - {x};
    assert req in b && b[req] == r;
    var v, v' := EvaluateTraced(env, objects, r), EvaluateTraced(env, b, r);
    DeletionTraces(env, objects, r, x);
    ReportsOthers(env, objects, r, x);
    ShownWithout(v, v', StatusOf(r), edges, x);
  }

  lemma ShownWithout(v: Verdict, v': Verdict, shown: Option<string>, edges: set<Id>, x: Id)
    requires shown == Some(StatusText(v.status)) && v.refs <= edges
    requires x !in v'.refs && (v' == v <==> x !in v.refs)
    ensures shown == Some(StatusText(v'.status)) && v'.refs <= edges - {x} <==>
            x !in v.refs || (v'.status == v.status && v'.refs <= edges)
    ensures shown == Some(StatusText(v'.status)) <==> v'.status == v.status
  {
    SameWord(v.status, v'.status);
  }

  /** A verdict that is shown and right is pass or fail. */
  lemma ShownKnown(env: Env, objects: Objects, edges: set<Id>, req: Id)
    requires req in objects && Settled(objects[req]) && Current(env, objects, edges, req)
    ensures EvaluateTraced(env, objects, objects[req]).status != Unknown
  {
    SameWord(EvaluateTraced(env, objects, objects[req]).status, Unknown);
    assert StatusText(Unknown)[0] == 'u';
  }

  lemma SameWord(a: Status, b: Status)
    ensures StatusText(a) == StatusText(b) <==> a == b
  {
    assert StatusText(Pass)[0] == 'p' && StatusText(Fail)[0] == 'f' && StatusText(Unknown)[0] == 'u' && StatusText(Stale)[0] == 's';
  }

  /**
   Where every term that reports the object needs it, not reporting it is the whole condition,
   for the shown status alone as well.
   */
  lemma DeletionOfNeeded(env: Env, g: Graph, command: string, actor: string, x: Id, order: seq<Id>, now: int, req: Id)
    requires GoodEnv(env) && Steady(env) && Sound(g) && x in g.objects && LegalCall(g, actor, RemoveObject(x, order))
    requires req != x && req in g.objects && Settled(g.objects[req]) && Honest(env, g, req)
    requires forall t :: t in Reached(env, g.objects, g.objects[req]) && x in TermValue(env, g.objects, t).refs ==> Needs(g.objects, t, x)
    ensures Honest(env, Left(g, command, actor, [RemoveObject(x, order)], now), req) <==>
            x !in EvaluateTraced(env, g.objects, g.objects[req]).refs
    ensures ShownRight(env, Left(g, command, actor, [RemoveObject(x, order)], now).objects, req) <==>
            x !in EvaluateTraced(env, g.objects, g.objects[req]).refs
  {
    var r := g.objects[req];
    DeletionTraces(env, g.objects, r, x);
    NeededBreaks(env, g.objects, r, x);
    ShownKnown(env, g.objects, DepTargets(g.relations, req), req);
    DeletionShows(env, g, command, actor, x, order, now, req);
  }

  lemma NeededBreaks(env: Env, objects: Objects, req: Object, x: Id)
    requires GoodEnv(env) && Steady(env)
    requires forall t :: t in Reached(env, objects, req) && x in TermValue(env, objects, t).refs ==> Needs(objects, t, x)
    ensures x in EvaluateTraced(env, objects, req).refs ==> EvaluateTraced(env, objects - {x}, req).status == Unknown
  {
    var b := objects - {x};
    forall t | t in Reached(env, objects, req)
      ensures TermValue(env, b, t) == TermValue(env, objects, t) || TermValue(env, b, t).result.Err?
    {
      TermWithout(env, objects, t, x);
    }
    VerdictBroken(env, objects, b, req);
    DeletionTraces(env, objects, req, x);
  }
}
