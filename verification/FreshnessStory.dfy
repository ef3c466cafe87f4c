/**
 Runs from an empty project: one of the kind the theorem about shown verdicts is for, and
 those at whose end a shown verdict is wrong.
 */
module FreshnessStory {
  import opened Prelude
  import opened ProjectGraph
  import opened Journal
  import opened Calls
  import opened Staleness
  import opened EngineModel
  import opened EngineRuns
  import opened Requirement
  import opened RequirementTrace
  import opened RequirementPrinter
  import opened RequirementCommands
  import opened Freshness
  import opened FreshnessChanges
  import opened FreshnessExamples

  // ----- creating objects that show nothing ----------------------------------------------------

  predicate NothingShown(objects: Objects) {
    forall i :: i in objects ==> StatusOf(objects[i]).None?
  }

  function Creating(o: Object, actor: string, now: int): Event {
    Doing("object.create", InsertObject(o), actor, now)
  }

  lemma CreateIsPlain()
    ensures !WritesStatus("object.create")
  {
    assert "object.create"[0] == 'o' && "requirement.evaluate"[0] == 'r' && "requirement.set_status"[0] == 'r';
  }

  /** Creating such an object while nothing is settled is legal, owes nothing and only inserts it. */
  lemma Created(env: Env, st: EngineState, o: Object, actor: string, now: int, req: Id)
    requires st.cursor <= |st.records| && Sound(st.graph) && o.id !in st.graph.objects && st.graph.relations == map[]
    requires NothingShown(st.graph.objects) && StatusOf(o).None?
    ensures var ev := Creating(o, actor, now);
            && Legal(st, ev) && Owes(env, st, ev, req)
            && Step(st, ev).graph == Stored(st.graph, o)
  {
    var g, ev := st.graph, Creating(o, actor, now);
    CreateIsPlain();
    ExecuteLeaves(st, ev.attempt);
    CreationLeaves(g, "object.create", o, actor, now);
    NothingSettled(g, o, actor, now);
    OneCall(g, actor, InsertObject(o), SetObject(None, Some(o)));
    NothingOwed(env, g, Stored(g, o), [SetObject(None, Some(o))], req);
  }

  lemma NothingOwed(env: Env, g: Graph, handled: Graph, ops: seq<StateOp>, req: Id)
    requires NothingShown(handled.objects)
    ensures Respects(env, g, handled, ops, req)
  {
  }

  lemma NothingSettled(g: Graph, o: Object, actor: string, now: int)
    requires NothingShown(g.objects) && StatusOf(o).None?
    ensures StoredAndMarked(g, o, actor, now) == Stored(g, o)
  {
    assert ToMark(Stored(g, o), {o.id}) == {};
    assert StoredAndMarked(g, o, actor, now).objects == Stored(g, o).objects;
  }

  // ----- evaluating a requirement that reports at most one object ---------------------------------

  function Targets(target: Option<Id>): set<Id> {
    if target.Some? then {target.value} else {}
  }

  function Edge(q: Id, target: Id, rid: Id, actor: string, now: int): Relation {
    Relation(rid, DEPENDS_ON, q, target, map[], Some(Meta(now, actor, now, actor, None, 0)))
  }

  function Edges(q: Id, target: Option<Id>, rid: Id, actor: string, now: int): map<Id, Relation> {
    if target.Some? then map[rid := Edge(q, target.value, rid, actor, now)] else map[]
  }

  /** Write the verdict and add the one edge, if there is something to depend on. */
  function Judgement(q: Object, v: Verdict, target: Option<Id>, rid: Id, actor: string, now: int): seq<Call> {
    [Call.UpdateObject(q.id, WithVerdict(q, v), now)]
    + (if target.Some? then [PutRelation(Edge(q.id, target.value, rid, actor, now))] else [])
  }

  function Evaluating(env: Env, objects: Objects, q: Object, target: Option<Id>, rid: Id, actor: string, now: int): Event {
    Execute(Attempt("requirement.evaluate", actor, Null, Admitted,
                    Judgement(q, EvaluateTraced(env, objects, q), target, rid, actor, now), Ok(Null), 0, now))
  }

  /** The graph with the verdict and the edge. */
  function Judged(g: Graph, q: Id, v: Verdict, target: Option<Id>, rid: Id, actor: string, now: int): Graph
    requires q in g.objects
  {
    g.(objects := StatusWritten(g.objects, q, v, actor, now), relations := Edges(q, target, rid, actor, now))
  }

  lemma JudgementLeads(g: Graph, q: Object, v: Verdict, target: Option<Id>, rid: Id, actor: string, now: int)
    requires q.id in g.objects && g.objects[q.id] == q && g.relations == map[] && Targets(target) <= g.objects.Keys
    ensures var calls := Judgement(q, v, target, rid, actor, now);
            LegalCalls(g, actor, calls) && Forward(g, CallsOps(g, actor, calls)) == Judged(g, q.id, v, target, rid, actor, now)
  {
    var first := Call.UpdateObject(q.id, WithVerdict(q, v), now);
    var op := SetObject(Some(q), Some(WithVerdict(q, v).Touch(actor, now)));
    var mid := Apply(g, op, true);
    OneCall(g, actor, first, op);
    if target.Some? {
      var second := PutRelation(Edge(q.id, target.value, rid, actor, now));
      var put := SetRelation(None, Some(second.rel));
      OneCall(mid, actor, second, put);
      CallsAppend(g, actor, [first], second);
      ForwardConcat(g, [op], [put]);
    }
  }

  lemma TargetsOfEdges(q: Id, target: Option<Id>, rid: Id, actor: string, now: int)
    ensures DepTargets(Edges(q, target, rid, actor, now), q) == Targets(target)
  {
    if target.Some? {
      var relations := Edges(q, target, rid, actor, now);
      assert rid in relations && IsDependency(relations[rid], q);
    }
  }

  /** That is what `requirement.evaluate` does when the evaluation reports just the target. */
  lemma JudgedIsEvaluated(env: Env, g: Graph, q: Object, target: Option<Id>, rid: Id, actor: string, now: int)
    requires q.id in g.objects && g.objects[q.id] == q && g.relations == map[] && EvaluateTraced(env, g.objects, q).refs == Targets(target)
    ensures var v := EvaluateTraced(env, g.objects, q);
            Evaluated(env, g, Judged(g, q.id, v, target, rid, actor, now), [q.id], [v], actor, now)
  {
    var v := EvaluateTraced(env, g.objects, q);
    var after := Judged(g, q.id, v, target, rid, actor, now);
    assert [q.id][..0] == [];
    assert after.objects == Written(env, g.objects, [q.id], actor, now);
    assert Unrelated(after.relations, [q.id]) == map[] == Unrelated(g.relations, [q.id]);
    TargetsOfEdges(q.id, target, rid, actor, now);
    assert DecidedAt(env, g, after, [q.id], [v], 0, actor, now);
  }

  /** The engine's step, and that it is owed nothing where the requirement does not report itself. */
  lemma Evaluates(env: Env, st: EngineState, q: Object, target: Option<Id>, rid: Id, actor: string, now: int)
    requires GoodEnv(env) && st.cursor <= |st.records| && q.id in st.graph.objects && st.graph.objects[q.id] == q && st.graph.relations == map[]
    requires EvaluateTraced(env, st.graph.objects, q).refs == Targets(target)
    ensures var ev := Evaluating(env, st.graph.objects, q, target, rid, actor, now);
            && Legal(st, ev)
            && Step(st, ev).graph == Judged(st.graph, q.id, EvaluateTraced(env, st.graph.objects, q), target, rid, actor, now)
            && (target != Some(q.id) ==> Owes(env, st, ev, q.id))
  {
    var g, ev := st.graph, Evaluating(env, st.graph.objects, q, target, rid, actor, now);
    RefsExist(env, g.objects, q);
    JudgementLeads(g, q, EvaluateTraced(env, g.objects, q), target, rid, actor, now);
    ExecuteLeaves(st, ev.attempt);
    if target != Some(q.id) {
      JudgedIsEvaluated(env, g, q, target, rid, actor, now);
      Unread(env, g.objects, q, actor, now);
      Met(env, g, Judged(g, q.id, EvaluateTraced(env, g.objects, q), target, rid, actor, now), q.id, EvaluateTraced(env, g.objects, q), actor, now);
    }
  }

  lemma Met(env: Env, g: Graph, after: Graph, q: Id, v: Verdict, actor: string, now: int)
    requires Evaluated(env, g, after, [q], [v], actor, now) && UnreadThroughout(env, g.objects, [q], actor, now, q)
    ensures EvaluatesFor(env, g, after, actor, now, q)
  {
    var ids: seq<Id>, verdicts: seq<Verdict> := [q], [v];
    assert Distinct(ids) && Evaluated(env, g, after, ids, verdicts, actor, now);
  }

  /** What an evaluation does not report it has not read. */
  lemma Unread(env: Env, objects: Objects, q: Object, actor: string, now: int)
    requires q.id in objects && objects[q.id] == q && q.id !in EvaluateTraced(env, objects, q).refs
    ensures UnreadThroughout(env, objects, [q.id], actor, now, q.id)
  {
    UnreportedUnread(env, objects, q, q.id);
    OneUnread(env, objects, q.id, actor, now, q.id);
  }

  lemma UnreportedUnread(env: Env, objects: Objects, req: Object, id: Id)
    requires id !in EvaluateTraced(env, objects, req).refs
    ensures !ReadsStatus(env, objects, req, id)
  {
    VerdictTraces(env, objects, req);
    var refs := EvaluateTraced(env, objects, req).refs;
    forall t | t in Reached(env, objects, req)
      ensures !Reads(env, objects, t, id, REQUIREMENT_STATUS)
    {
      assert TermValue(env, objects, t).refs <= refs;
      ReadIsReported(env, objects, t, id, REQUIREMENT_STATUS);
    }
  }

  lemma ReadIsReported(env: Env, objects: Objects, t: Term, id: Id, component: string)
    ensures Reads(env, objects, t, id, component) ==> id in TermValue(env, objects, t).refs
  {
  }

  lemma OneUnread(env: Env, objects: Objects, id: Id, actor: string, now: int, req: Id)
    requires UnreadAt(env, objects, id, req)
    ensures UnreadThroughout(env, objects, [id], actor, now, req)
  {
    assert [id][..0] == [];
    assert UnreadThroughout(env, objects, [], actor, now, req);
  }

  // ----- the requirement ----------------------------------------------------------------------------

  /** A requirement that asks for objects of type `k`, is none itself and has not been evaluated. */
  predicate Asks(q: Object, k: string) {
    ArgOk(Bare(k)) && q.typeId != k && ExpressionOf(q) == OrText(Looking(k)) && StatusOf(q).None?
  }

  /** The requirement with its verdict on `objects`. */
  function Shown(env: Env, objects: Objects, q: Object, actor: string, now: int): Object {
    WithVerdict(q, EvaluateTraced(env, objects, q)).Touch(actor, now)
  }

  lemma ShownLooks(env: Env, objects: Objects, q: Object, k: string, actor: string, now: int)
    requires GoodEnv(env) && Asks(q, k)
    ensures EvaluateTraced(env, objects, q).refs == OfType(objects, k)
    ensures Looks(Shown(env, objects, q, actor, now), k, Found(objects, k)) && Shown(env, objects, q, actor, now).id == q.id
  {
    LookerMeans(env, objects, q, k);
    WrittenStatus(q, EvaluateTraced(env, objects, q), actor, now);
  }

  predicate Empty(g: Graph) {
    g.objects == map[] && g.relations == map[]
  }

  // ----- found, and shown as such ---------------------------------------------------------------------

  function Both(q: Object, s: Object): Objects {
    map[q.id := q, s.id := s]
  }

  /** The requirement and an object it asks for are created, and it is evaluated. */
  function Story(env: Env, q: Object, s: Object, rid: Id, actor: string, now: int): seq<Event> {
    [Creating(q, actor, now), Creating(s, actor, now)] + [Evaluating(env, Both(q, s), q, Some(s.id), rid, actor, now)]
  }

  predicate Cast(q: Object, s: Object) {
    Asks(q, s.typeId) && q.id != s.id && StatusOf(s).None?
  }

  /** Where the story ends. */
  predicate Told(env: Env, g: Graph, q: Object, s: Object, rid: Id, actor: string, now: int) {
    && g.objects == map[q.id := Shown(env, Both(q, s), q, actor, now), s.id := s]
    && g.relations == map[rid := Edge(q.id, s.id, rid, actor, now)]
  }

  lemma StoryLeads(env: Env, g: Graph, q: Object, s: Object, rid: Id, actor: string, now: int)
    requires GoodEnv(env) && Cast(q, s) && Empty(g)
    ensures LegalRun(Start(g), Story(env, q, s, rid, actor, now))
    ensures OwesAll(env, Start(g), Story(env, q, s, rid, actor, now), q.id)
    ensures Told(env, Run(Start(g), Story(env, q, s, rid, actor, now)).graph, q, s, rid, actor, now)
  {
    var opening, last := [Creating(q, actor, now), Creating(s, actor, now)], Evaluating(env, Both(q, s), q, Some(s.id), rid, actor, now);
    OpeningLeads(env, g, q, s, actor, now);
    LastStep(env, Run(Start(g), opening), q, s, rid, actor, now);
    RunNext(Start(g), opening, last);
    OwesNext(env, Start(g), opening, last, q.id);
  }

  /** One object, created in an empty project. */
  lemma FirstLeads(env: Env, g: Graph, o: Object, actor: string, now: int, req: Id)
    requires Empty(g) && StatusOf(o).None?
    ensures var evs := [Creating(o, actor, now)];
            var st := Run(Start(g), evs);
            && LegalRun(Start(g), evs) && OwesAll(env, Start(g), evs, req)
            && st.graph.objects == map[o.id := o] && st.graph.relations == map[]
  {
    var ev := Creating(o, actor, now);
    Created(env, Start(g), o, actor, now, req);
    assert [] + [ev] == [ev];
    RunNext(Start(g), [], ev);
    OwesNext(env, Start(g), [], ev, req);
  }

  lemma OpeningLeads(env: Env, g: Graph, q: Object, s: Object, actor: string, now: int)
    requires Empty(g) && Cast(q, s)
    ensures var evs := [Creating(q, actor, now), Creating(s, actor, now)];
            var st := Run(Start(g), evs);
            && LegalRun(Start(g), evs) && OwesAll(env, Start(g), evs, q.id)
            && st.graph.objects == Both(q, s) && st.graph.relations == map[]
  {
    var first, second := Creating(q, actor, now), Creating(s, actor, now);
    FirstLeads(env, g, q, actor, now, q.id);
    Created(env, Run(Start(g), [first]), s, actor, now, q.id);
    assert [first] + [second] == [first, second];
    RunNext(Start(g), [first], second);
    OwesNext(env, Start(g), [first], second, q.id);
  }

  lemma LastStep(env: Env, st: EngineState, q: Object, s: Object, rid: Id, actor: string, now: int)
    requires GoodEnv(env) && Cast(q, s) && st.cursor <= |st.records| && st.graph.objects == Both(q, s) && st.graph.relations == map[]
    ensures var ev := Evaluating(env, Both(q, s), q, Some(s.id), rid, actor, now);
            Legal(st, ev) && Owes(env, st, ev, q.id) && Told(env, Step(st, ev).graph, q, s, rid, actor, now)
  {
    assert OfType(Both(q, s), s.typeId) == {s.id};
    ShownLooks(env, Both(q, s), q, s.typeId, actor, now);
    Evaluates(env, st, q, Some(s.id), rid, actor, now);
    WrittenInBoth(q, s, EvaluateTraced(env, Both(q, s), q), actor, now);
  }

  lemma WrittenInBoth(q: Object, s: Object, v: Verdict, actor: string, now: int)
    requires q.id != s.id
    ensures StatusWritten(Both(q, s), q.id, v, actor, now) == map[q.id := WithVerdict(q, v).Touch(actor, now), s.id := s]
  {
  }

  lemma WrittenAlone(q: Object, v: Verdict, actor: string, now: int)
    ensures StatusWritten(map[q.id := q], q.id, v, actor, now) == map[q.id := WithVerdict(q, v).Touch(actor, now)]
  {
  }

  lemma {:induction false} OwesNext(env: Env, st: EngineState, events: seq<Event>, ev: Event, req: Id)
    requires st.cursor <= |st.records|
    ensures OwesAll(env, st, events + [ev], req) <==> OwesAll(env, st, events, req) && Owes(env, Run(st, events), ev, req)
    decreases |events|
  {
    if events == [] {
      assert [] + [ev] == [ev] && [ev][1..] == [];
    } else {
      assert (events + [ev])[0] == events[0] && (events + [ev])[1..] == events[1..] + [ev];
      OwesNext(env, Step(st, events[0]), events[1..], ev, req);
    }
  }

  /** What holds where the story ends: it rightly shows "pass" and has its edge. */
  lemma ToldIsRight(env: Env, g: Graph, q: Object, s: Object, rid: Id, actor: string, now: int)
    requires GoodEnv(env) && Cast(q, s) && Told(env, g, q, s, rid, actor, now)
    ensures Sound(g) && OfType(g.objects, s.typeId) == {s.id} && DepTargets(g.relations, q.id) == {s.id}
    ensures Looks(g.objects[q.id], s.typeId, Pass) && g.objects[q.id].id == q.id && Honest(env, g, q.id)
  {
    assert OfType(Both(q, s), s.typeId) == {s.id};
    ShownLooks(env, Both(q, s), q, s.typeId, actor, now);
    assert OfType(g.objects, s.typeId) == {s.id};
    TargetsOfEdges(q.id, Some(s.id), rid, actor, now);
    LookerShows(env, g, g.objects[q.id], s.typeId, Pass);
  }

  /**
   From an empty project the run is legal, owes nothing, and ends with a requirement that
   rightly shows "pass", in a project that has objects and edges.
   */
  lemma StoryIsFresh(env: Env, g: Graph, q: Object, s: Object, rid: Id, actor: string, now: int)
    requires GoodEnv(env) && Cast(q, s) && Empty(g)
    ensures LegalRun(Start(g), Story(env, q, s, rid, actor, now))
    ensures OwesAll(env, Start(g), Story(env, q, s, rid, actor, now), q.id)
    ensures var end := Run(Start(g), Story(env, q, s, rid, actor, now)).graph;
            q.id in end.objects && StatusOf(end.objects[q.id]) == Some("pass") && DepTargets(end.relations, q.id) == {s.id}
  {
    StoryLeads(env, g, q, s, rid, actor, now);
    ToldIsRight(env, Run(Start(g), Story(env, q, s, rid, actor, now)).graph, q, s, rid, actor, now);
  }

  // ----- the object is deleted --------------------------------------------------------------------------

  /** The story, and then the object goes with its edge. */
  function DeletionStory(env: Env, q: Object, s: Object, rid: Id, actor: string, now: int): seq<Event> {
    Story(env, q, s, rid, actor, now) + [Doing("object.delete", RemoveObject(s.id, [rid]), actor, now)]
  }

  /** Nothing is marked: "pass" is still shown, and wrong. */
  lemma DeletionIsOverlooked(env: Env, g: Graph, q: Object, s: Object, rid: Id, actor: string, now: int)
    requires GoodEnv(env) && Cast(q, s) && Empty(g)
    ensures LegalRun(Start(g), DeletionStory(env, q, s, rid, actor, now))
    ensures var end := Run(Start(g), DeletionStory(env, q, s, rid, actor, now)).graph;
            q.id in end.objects && StatusOf(end.objects[q.id]) == Some("pass") && !ShownRight(env, end.objects, q.id)
  {
    var told := Run(Start(g), Story(env, q, s, rid, actor, now));
    StoryLeads(env, g, q, s, rid, actor, now);
    ToldIsRight(env, told.graph, q, s, rid, actor, now);
    RunNext(Start(g), Story(env, q, s, rid, actor, now), Doing("object.delete", RemoveObject(s.id, [rid]), actor, now));
    DeletionStep(env, told, q, s, rid, actor, now);
  }

  lemma DeletionStep(env: Env, st: EngineState, q: Object, s: Object, rid: Id, actor: string, now: int)
    requires GoodEnv(env) && Cast(q, s) && st.cursor <= |st.records| && Told(env, st.graph, q, s, rid, actor, now)
    ensures var ev := Doing("object.delete", RemoveObject(s.id, [rid]), actor, now);
            var end := Step(st, ev).graph;
            && Legal(st, ev)
            && q.id in end.objects && StatusOf(end.objects[q.id]) == Some("pass") && !ShownRight(env, end.objects, q.id)
  {
    var g, ev := st.graph, Doing("object.delete", RemoveObject(s.id, [rid]), actor, now);
    ToldIsRight(env, g, q, s, rid, actor, now);
    assert LegalCall(g, actor, RemoveObject(s.id, [rid]));
    assert [ev.attempt.calls[0]][1..] == [];
    ExecuteLeaves(st, ev.attempt);
    DeletionLeaves(g, "object.delete", actor, s.id, [rid], now);
    DeletionAndLooker(env, g, g.objects[q.id], s.typeId, Pass, s.id, [rid], "object.delete", actor, now);
  }

  // ----- an object appears --------------------------------------------------------------------------------

  /** The requirement is created and evaluated, and then an object it asks for is created. */
  function CreationStory(env: Env, q: Object, s: Object, actor: string, now: int): seq<Event> {
    [Creating(q, actor, now)] + [Evaluating(env, map[q.id := q], q, None, 0, actor, now)] + [Creating(s, actor, now)]
  }

  /** Nothing is marked: "fail" is still shown, and wrong. */
  lemma CreationIsOverlooked(env: Env, g: Graph, q: Object, s: Object, actor: string, now: int)
    requires GoodEnv(env) && Cast(q, s) && Empty(g)
    ensures LegalRun(Start(g), CreationStory(env, q, s, actor, now))
    ensures var end := Run(Start(g), CreationStory(env, q, s, actor, now)).graph;
            q.id in end.objects && StatusOf(end.objects[q.id]) == Some("fail") && !ShownRight(env, end.objects, q.id)
  {
    var first, second := [Creating(q, actor, now)], Evaluating(env, map[q.id := q], q, None, 0, actor, now);
    FirstLeads(env, g, q, actor, now, q.id);
    FailShown(env, Run(Start(g), first), q, s.typeId, actor, now);
    RunNext(Start(g), first, second);
    NewcomerStep(env, Run(Start(g), first + [second]), q, s, actor, now);
    RunNext(Start(g), first + [second], Creating(s, actor, now));
  }

  /** Nothing to be found: "fail" is shown, and right. */
  lemma FailShown(env: Env, st: EngineState, q: Object, k: string, actor: string, now: int)
    requires GoodEnv(env) && Asks(q, k) && st.cursor <= |st.records| && st.graph.objects == map[q.id := q] && st.graph.relations == map[]
    ensures var ev := Evaluating(env, map[q.id := q], q, None, 0, actor, now);
            var end := Step(st, ev).graph;
            && Legal(st, ev) && end.objects == map[q.id := Shown(env, map[q.id := q], q, actor, now)] && end.relations == map[]
  {
    assert OfType(map[q.id := q], k) == {};
    ShownLooks(env, map[q.id := q], q, k, actor, now);
    Evaluates(env, st, q, None, 0, actor, now);
    WrittenAlone(q, EvaluateTraced(env, map[q.id := q], q), actor, now);
  }

  lemma NewcomerStep(env: Env, st: EngineState, q: Object, s: Object, actor: string, now: int)
    requires GoodEnv(env) && Cast(q, s) && st.cursor <= |st.records|
    requires st.graph.objects == map[q.id := Shown(env, map[q.id := q], q, actor, now)] && st.graph.relations == map[]
    ensures var end := Step(st, Creating(s, actor, now)).graph;
            && Legal(st, Creating(s, actor, now))
            && q.id in end.objects && StatusOf(end.objects[q.id]) == Some("fail") && !ShownRight(env, end.objects, q.id)
  {
    var g, q', k := st.graph, Shown(env, map[q.id := q], q, actor, now), s.typeId;
    assert OfType(map[q.id := q], k) == {};
    ShownLooks(env, map[q.id := q], q, k, actor, now);
    assert OfType(g.objects, k) == {};
    LookerShows(env, g, q', k, Fail);
    CreationStep(env, st, q', k, Fail, s, actor, now);
  }

  /** Creating an object behind a requirement that asks for `k`. */
  lemma CreationStep(env: Env, st: EngineState, q: Object, k: string, shown: Status, s: Object, actor: string, now: int)
    requires GoodEnv(env) && Looks(q, k, shown) && (shown == Pass || shown == Fail) && st.cursor <= |st.records| && Sound(st.graph)
    requires q.id in st.graph.objects && st.graph.objects[q.id] == q && s.id !in st.graph.objects && Honest(env, st.graph, q.id)
    ensures var end := Step(st, Creating(s, actor, now)).graph;
            && Legal(st, Creating(s, actor, now)) && end == StoredAndMarked(st.graph, s, actor, now)
            && q.id in end.objects && end.objects[q.id] == q
            && (ShownRight(env, end.objects, q.id) <==> s.typeId != k || shown == Pass)
  {
    var g, ev := st.graph, Creating(s, actor, now);
    CreateIsPlain();
    OneCall(g, actor, InsertObject(s), SetObject(None, Some(s)));
    ExecuteLeaves(st, ev.attempt);
    CreationLeaves(g, "object.create", s, actor, now);
    NoEdgesIntoFresh(g, s.id, q.id);
    StoredUnmarked(g, s, actor, now, q.id);
    CreationAndLooker(env, g, q, k, shown, s, "object.create", actor, now);
  }

  // ----- a second object appears ------------------------------------------------------------------------------

  /** The story, and then another object of the type is created. */
  function SecondStory(env: Env, q: Object, s: Object, other: Object, rid: Id, actor: string, now: int): seq<Event> {
    Story(env, q, s, rid, actor, now) + [Creating(other, actor, now)]
  }

  /**
   The evaluation finds the newcomer and has no edge to it, and still "pass" is right: for the
   status alone, not to be found is not necessary.
   */
  lemma SecondIsHarmless(env: Env, g: Graph, q: Object, s: Object, other: Object, rid: Id, actor: string, now: int)
    requires GoodEnv(env) && Steady(env) && Geometric(env) && Cast(q, s) && Empty(g)
    requires other.typeId == s.typeId && other.id != q.id && other.id != s.id
    ensures LegalRun(Start(g), SecondStory(env, q, s, other, rid, actor, now))
    ensures var before := Run(Start(g), Story(env, q, s, rid, actor, now)).graph;
            var end := Run(Start(g), SecondStory(env, q, s, other, rid, actor, now)).graph;
            && q.id in before.objects && EvaluationFinds(env, before.objects, before.objects[q.id], other)
            && q.id in end.objects && StatusOf(end.objects[q.id]) == Some("pass")
            && ShownRight(env, end.objects, q.id) && !Honest(env, end, q.id)
  {
    var told := Run(Start(g), Story(env, q, s, rid, actor, now));
    StoryLeads(env, g, q, s, rid, actor, now);
    RunNext(Start(g), Story(env, q, s, rid, actor, now), Creating(other, actor, now));
    SecondStep(env, told, q, s, other, rid, actor, now);
  }

  lemma SecondStep(env: Env, st: EngineState, q: Object, s: Object, other: Object, rid: Id, actor: string, now: int)
    requires GoodEnv(env) && Steady(env) && Geometric(env) && Cast(q, s)
    requires other.typeId == s.typeId && other.id != q.id && other.id != s.id
    requires st.cursor <= |st.records| && Told(env, st.graph, q, s, rid, actor, now)
    ensures var end := Step(st, Creating(other, actor, now)).graph;
            && Legal(st, Creating(other, actor, now))
            && EvaluationFinds(env, st.graph.objects, st.graph.objects[q.id], other)
            && q.id in end.objects && StatusOf(end.objects[q.id]) == Some("pass")
            && ShownRight(env, end.objects, q.id) && !Honest(env, end, q.id)
  {
    var g, k := st.graph, s.typeId;
    var q' := g.objects[q.id];
    ToldIsRight(env, g, q, s, rid, actor, now);
    CreationStep(env, st, q', k, Pass, other, actor, now);
    NewcomerFound(env, g, q', k, other, actor, now);
  }

  /** It is reported without an edge, so it is an object the evaluation finds. */
  lemma NewcomerFound(env: Env, g: Graph, q: Object, k: string, other: Object, actor: string, now: int)
    requires GoodEnv(env) && Steady(env) && Geometric(env) && Sound(g) && Looks(q, k, Pass)
    requires q.id in g.objects && g.objects[q.id] == q && Honest(env, g, q.id) && other.id !in g.objects && other.typeId == k
    ensures !Honest(env, StoredAndMarked(g, other, actor, now), q.id) && EvaluationFinds(env, g.objects, q, other)
  {
    NoEdgesIntoFresh(g, other.id, q.id);
    StoredUnmarked(g, other, actor, now, q.id);
    StoredKinds(g, other, actor, now, k);
    LookerShows(env, StoredAndMarked(g, other, actor, now), q, k, Pass);
    StoredShows(env, g, other, actor, now, q.id);
    FreshMarksNothing(env, g, other, q);
  }

  // ----- a requirement reads what its evaluation overwrites -------------------------------------------------------

  /** The requirement is created and evaluated. */
  function SelfStory(env: Env, o: Object, rid: Id, actor: string, now: int): seq<Event> {
    [Creating(o, actor, now)] + [Evaluating(env, map[o.id := o], o, Some(o.id), rid, actor, now)]
  }

  /** It shows "pass", and evaluated once more it does not pass. */
  lemma SelfReadingRun(env: Env, g: Graph, o: Object, field: string, rid: Id, actor: string, now: int)
    requires GoodEnv(env) && Empty(g) && ReadsItself(o, field) && StatusOf(o).None?
    requires REQUIREMENT_STATUS in o.components && o.components[REQUIREMENT_STATUS].data.Obj?
    requires field in o.components[REQUIREMENT_STATUS].data.fields && o.components[REQUIREMENT_STATUS].data.fields[field] == Number(1.0)
    ensures LegalRun(Start(g), SelfStory(env, o, rid, actor, now))
    ensures var end := Run(Start(g), SelfStory(env, o, rid, actor, now)).graph;
            o.id in end.objects && StatusOf(end.objects[o.id]) == Some("pass") && !ShownRight(env, end.objects, o.id)
  {
    var first := [Creating(o, actor, now)];
    FirstLeads(env, g, o, actor, now, o.id);
    SelfStep(env, Run(Start(g), first), o, field, rid, actor, now);
    RunNext(Start(g), first, Evaluating(env, map[o.id := o], o, Some(o.id), rid, actor, now));
  }

  lemma SelfStep(env: Env, st: EngineState, o: Object, field: string, rid: Id, actor: string, now: int)
    requires GoodEnv(env) && st.cursor <= |st.records| && st.graph.objects == map[o.id := o] && st.graph.relations == map[]
    requires ReadsItself(o, field) && REQUIREMENT_STATUS in o.components && o.components[REQUIREMENT_STATUS].data.Obj?
    requires field in o.components[REQUIREMENT_STATUS].data.fields && o.components[REQUIREMENT_STATUS].data.fields[field] == Number(1.0)
    ensures var ev := Evaluating(env, map[o.id := o], o, Some(o.id), rid, actor, now);
            var end := Step(st, ev).graph;
            && Legal(st, ev)
            && o.id in end.objects && StatusOf(end.objects[o.id]) == Some("pass") && !ShownRight(env, end.objects, o.id)
  {
    var written := st.graph.(objects := StatusWritten(map[o.id := o], o.id, EvaluateTraced(env, map[o.id := o], o), actor, now));
    SelfReadingIsNotHonest(env, o, field, written, actor, now);
    Evaluates(env, st, o, Some(o.id), rid, actor, now);
  }
}
