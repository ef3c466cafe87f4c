/**
 Where the dependency trace, the edges kept by `requirement.evaluate` and the staleness
 marks meet: a verdict that is shown is the verdict a new evaluation would give.
 */
module Freshness {
  import opened Prelude
  import opened ProjectGraph
  import opened Journal
  import opened Calls
  import opened HistoryLog
  import opened Staleness
  import opened EngineModel
  import opened EngineRuns
  import opened Text
  import opened Requirement
  import opened RequirementTrace
  import opened RequirementCommands

  /** If the requirement shows pass or fail, evaluating it now says so too, and `edges` cover the trace. */
  ghost predicate Current(env: Env, objects: Objects, edges: set<Id>, req: Id) {
    req in objects && Settled(objects[req]) ==>
      var v := EvaluateTraced(env, objects, objects[req]);
      && StatusOf(objects[req]) == Some(StatusText(v.status))
      && v.refs <= edges
  }

  /** The status alone: if the requirement shows pass or fail, evaluating it now says so too. */
  ghost predicate ShownRight(env: Env, objects: Objects, req: Id) {
    req in objects && Settled(objects[req]) ==>
      StatusOf(objects[req]) == Some(StatusText(EvaluateTraced(env, objects, objects[req]).status))
  }

  ghost predicate Honest(env: Env, g: Graph, req: Id) {
    Current(env, g.objects, DepTargets(g.relations, req), req)
  }

  // ----- writing a verdict ---------------------------------------------------------------

  /** Some term the evaluation gets to reads the status component of `id`. */
  ghost predicate ReadsStatus(env: Env, objects: Objects, req: Object, id: Id) {
    exists t :: t in Reached(env, objects, req) && Reads(env, objects, t, id, REQUIREMENT_STATUS)
  }

  /** No `object(..)` term of the expression names the status component. */
  ghost predicate NamesNoStatus(env: Env, expr: string) {
    forall t :: t in TermsOf(env, expr) && t.FieldOf? ==> Split(t.path, '.')[0] != REQUIREMENT_STATUS
  }

  /** Is it the `verdict` field, or something under it? Marking replaces that field by a string. */
  predicate OnVerdict(path: string) {
    var segments := Split(path, '.');
    |segments| >= 2 && segments[0] == REQUIREMENT_STATUS && segments[1] == "verdict"
  }

  predicate TermReadsVerdict(env: Env, objects: Objects, t: Term, id: Id) {
    t.FieldOf? && FindNamed(env, objects, t.name) == Some(id) && OnVerdict(t.path)
  }

  /** Some term the evaluation gets to looks for a number in the verdict field of `id`. */
  ghost predicate ReadsVerdict(env: Env, objects: Objects, req: Object, id: Id) {
    exists t :: t in Reached(env, objects, req) && TermReadsVerdict(env, objects, t, id)
  }

  lemma UnnamedUnread(env: Env, objects: Objects, req: Object, id: Id)
    requires NamesNoStatus(env, ExpressionOf(req))
    ensures !ReadsStatus(env, objects, req, id)
  {
    VerdictTraces(env, objects, req);
  }

  /** The same objects under the same names and types. */
  ghost predicate SameTable(a: Objects, b: Objects) {
    && a.Keys == b.Keys
    && forall i :: i in a ==> a[i].name == b[i].name && a[i].typeId == b[i].typeId
  }

  lemma TableAnswers(env: Env, a: Objects, b: Objects, l: Lookup)
    requires SameTable(a, b)
    ensures SameAnswer(env, a, b, l)
  {
    match l
    case OfKind(typeId) => assert OfType(a, typeId) == OfType(b, typeId);
    case OfName(name) => assert Named(a, name) == Named(b, name);
  }

  lemma TableAnswersAll(env: Env, a: Objects, b: Objects)
    requires SameTable(a, b)
    ensures forall l :: SameAnswer(env, a, b, l)
  {
    forall l
      ensures SameAnswer(env, a, b, l)
    {
      TableAnswers(env, a, b, l);
    }
  }

  function StatusWritten(objects: Objects, id: Id, w: Verdict, actor: string, now: int): Objects
    requires id in objects
  {
    objects[id := WithVerdict(objects[id], w).Touch(actor, now)]
  }

  function VerdictFields(v: Verdict): map<string, Json> {
    map["status" := Str(StatusText(v.status)), "verdict" := Str(v.text)]
  }

  lemma WrittenStatus(o: Object, v: Verdict, actor: string, now: int)
    ensures var o' := WithVerdict(o, v).Touch(actor, now);
            && REQUIREMENT_STATUS in o'.components && o'.components[REQUIREMENT_STATUS].data == Obj(VerdictFields(v))
            && AlikeBut(o.components, o'.components, REQUIREMENT_STATUS)
            && StatusOf(o') == Some(StatusText(v.status))
            && ExpressionOf(o') == ExpressionOf(o) && o'.name == o.name && o'.typeId == o.typeId
  {
    assert REQUIREMENT_EXPR != REQUIREMENT_STATUS;
  }

  /** There is no number in a written status component. */
  lemma WrittenFieldErrs(components: map<string, Component>, v: Verdict, path: string)
    requires REQUIREMENT_STATUS in components && components[REQUIREMENT_STATUS].data == Obj(VerdictFields(v))
    requires Split(path, '.')[0] == REQUIREMENT_STATUS
    ensures FieldValue(components, path).Err?
  {
    var rest := Split(path, '.')[1..];
    var data := Obj(VerdictFields(v));
    if rest != [] && rest[0] in VerdictFields(v) {
      assert WalkPath(data, rest) == WalkPath(VerdictFields(v)[rest[0]], rest[1..]);
    }
  }

  lemma FieldErrs(env: Env, objects: Objects, t: Term, id: Id)
    requires t.FieldOf? && FindNamed(env, objects, t.name) == Some(id) && FieldValue(Components(objects, id), t.path).Err?
    ensures TermValue(env, objects, t).result.Err?
  {
  }

  /** Reading what was written is an error. */
  lemma StatusReadErrs(env: Env, objects: Objects, id: Id, w: Verdict, actor: string, now: int, t: Term)
    requires Geometric(env) && id in objects && Reads(env, objects, t, id, REQUIREMENT_STATUS)
    ensures TermValue(env, StatusWritten(objects, id, w, actor, now), t).result.Err?
  {
    var b := StatusWritten(objects, id, w, actor, now);
    WrittenStatus(objects[id], w, actor, now);
    TableAnswersAll(env, objects, b);
    hide TermValue, FieldValue, WithVerdict, VerdictFields;
    assert SameAnswer(env, objects, b, OfName(t.name));
    WrittenFieldErrs(Components(b, id), w, t.path);
    FieldErrs(env, b, t, id);
  }

  lemma StatusUnread(env: Env, objects: Objects, id: Id, w: Verdict, actor: string, now: int, t: Term)
    requires Geometric(env) && id in objects && !Reads(env, objects, t, id, REQUIREMENT_STATUS)
    ensures TermValue(env, objects, t) == TermValue(env, StatusWritten(objects, id, w, actor, now), t)
  {
    hide TermValue, WithVerdict, Reads;
    var b := StatusWritten(objects, id, w, actor, now);
    WrittenStatus(objects[id], w, actor, now);
    TableAnswersAll(env, objects, b);
    TermFrame(env, objects, b, t, REQUIREMENT_STATUS);
  }

  /** A term notices the writing exactly when it reads the written component, and then it fails. */
  lemma StatusWriteTerm(env: Env, objects: Objects, id: Id, w: Verdict, actor: string, now: int, t: Term)
    requires Geometric(env) && id in objects
    ensures var b := StatusWritten(objects, id, w, actor, now);
            if Reads(env, objects, t, id, REQUIREMENT_STATUS) then TermValue(env, b, t).result.Err?
            else TermValue(env, objects, t) == TermValue(env, b, t)
  {
    hide TermValue, StatusWritten, Reads;
    if Reads(env, objects, t, id, REQUIREMENT_STATUS) {
      StatusReadErrs(env, objects, id, w, actor, now, t);
    } else {
      StatusUnread(env, objects, id, w, actor, now, t);
    }
  }

  /** An evaluation that answered answers the same afterwards, or is unknown because it reads what was written. */
  lemma StatusWriteVerdict(env: Env, objects: Objects, id: Id, w: Verdict, actor: string, now: int, req: Id)
    requires Geometric(env) && id in objects && req in objects
    ensures var b := StatusWritten(objects, id, w, actor, now);
            var v, v' := EvaluateTraced(env, objects, objects[req]), EvaluateTraced(env, b, b[req]);
            if !ReadsStatus(env, objects, objects[req], id) then v' == v
            else v.status != Unknown ==> v'.status == Unknown
  {
    var b := StatusWritten(objects, id, w, actor, now);
    var r, r' := objects[req], b[req];
    WrittenStatus(objects[id], w, actor, now);
    VerdictTraces(env, objects, r);
    VerdictTraces(env, b, r');
    VerdictFollows(env, objects, b, r, r');
    forall t | t in Reached(env, objects, r)
      ensures if Reads(env, objects, t, id, REQUIREMENT_STATUS) then TermValue(env, b, t).result.Err?
              else TermValue(env, objects, t) == TermValue(env, b, t)
    {
      StatusWriteTerm(env, objects, id, w, actor, now, t);
    }
  }

  /**
   `requirement.evaluate` makes a requirement honest if and only if its verdict is unknown or
   its evaluation did not read the status component that is then overwritten. The same is the
   exact condition for the shown status alone.
   */
  lemma EvaluationIsHonest(env: Env, g: Graph, after: Graph, id: Id, actor: string, now: int)
    requires Geometric(env) && id in g.objects
    requires var v := EvaluateTraced(env, g.objects, g.objects[id]);
             && after.objects == StatusWritten(g.objects, id, v, actor, now)
             && DepTargets(after.relations, id) == v.refs
    ensures Honest(env, after, id) <==>
            EvaluateTraced(env, g.objects, g.objects[id]).status == Unknown || !ReadsStatus(env, g.objects, g.objects[id], id)
    ensures ShownRight(env, after.objects, id) <==>
            EvaluateTraced(env, g.objects, g.objects[id]).status == Unknown || !ReadsStatus(env, g.objects, g.objects[id], id)
  {
    var v := EvaluateTraced(env, g.objects, g.objects[id]);
    WrittenStatus(g.objects[id], v, actor, now);
    StatusWriteVerdict(env, g.objects, id, v, actor, now, id);
  }

  /** What can be seen from the expression alone: if it names no status component, evaluating is always honest. */
  lemma EvaluationIsHonestUnnamed(env: Env, g: Graph, after: Graph, id: Id, actor: string, now: int)
    requires Geometric(env) && id in g.objects && NamesNoStatus(env, ExpressionOf(g.objects[id]))
    requires var v := EvaluateTraced(env, g.objects, g.objects[id]);
             && after.objects == StatusWritten(g.objects, id, v, actor, now)
             && DepTargets(after.relations, id) == v.refs
    ensures Honest(env, after, id)
  {
    UnnamedUnread(env, g.objects, g.objects[id], id);
    EvaluationIsHonest(env, g, after, id, actor, now);
  }

  /** Writing the verdict of another requirement: honest still, if and only if nothing shown has read its status. */
  lemma OtherWritten(env: Env, objects: Objects, edges: set<Id>, id: Id, w: Verdict, actor: string, now: int, req: Id)
    requires Geometric(env) && id in objects && req in objects && req != id && Current(env, objects, edges, req)
    ensures Current(env, StatusWritten(objects, id, w, actor, now), edges, req)
       <==> !Settled(objects[req]) || !ReadsStatus(env, objects, objects[req], id)
    ensures ShownRight(env, StatusWritten(objects, id, w, actor, now), req)
       <==> !Settled(objects[req]) || !ReadsStatus(env, objects, objects[req], id)
  {
    StatusWriteVerdict(env, objects, id, w, actor, now, req);
  }

  // ----- the whole of requirement.evaluate -------------------------------------------------

  /** The requirement never reads a status component in the state in which that component is about to be written. */
  ghost predicate UnreadThroughout(env: Env, objects: Objects, ids: seq<Id>, actor: string, now: int, req: Id)
    decreases |ids|
  {
    ids != [] ==>
      var front := ids[..|ids| - 1];
      && UnreadThroughout(env, objects, front, actor, now, req)
      && UnreadAt(env, Written(env, objects, front, actor, now), ids[|ids| - 1], req)
  }

  ghost predicate UnreadAt(env: Env, objects: Objects, id: Id, req: Id) {
    req in objects ==> !ReadsStatus(env, objects, objects[req], id)
  }

  /** The targets of the requirement's edges once the listed ones have been evaluated. */
  function EdgesAfter(env: Env, objects: Objects, ids: seq<Id>, actor: string, now: int, req: Id, edges: set<Id>): set<Id>
    requires forall i :: 0 <= i < |ids| ==> ids[i] in objects
    decreases |ids|
  {
    if ids == [] then edges
    else if ids[|ids| - 1] == req then VerdictAt(env, objects, ids, |ids| - 1, actor, now).refs
    else EdgesAfter(env, objects, ids[..|ids| - 1], actor, now, req, edges)
  }

  lemma {:induction false} WrittenIsCurrent(env: Env, objects: Objects, ids: seq<Id>, actor: string, now: int, req: Id, edges: set<Id>)
    requires Geometric(env) && Current(env, objects, edges, req)
    requires forall i :: 0 <= i < |ids| ==> ids[i] in objects
    requires UnreadThroughout(env, objects, ids, actor, now, req)
    ensures Current(env, Written(env, objects, ids, actor, now), EdgesAfter(env, objects, ids, actor, now, req, edges), req)
    decreases |ids|
  {
    if ids != [] {
      var n := |ids| - 1;
      var front := ids[..n];
      WrittenIsCurrent(env, objects, front, actor, now, req, edges);
      OneMoreWritten(env, Written(env, objects, front, actor, now), EdgesAfter(env, objects, front, actor, now, req, edges), ids[n], actor, now, req);
    }
  }

  lemma OneMoreWritten(env: Env, objects: Objects, edges: set<Id>, id: Id, actor: string, now: int, req: Id)
    requires Geometric(env) && id in objects && Current(env, objects, edges, req) && UnreadAt(env, objects, id, req)
    ensures var v := EvaluateTraced(env, objects, objects[id]);
            Current(env, StatusWritten(objects, id, v, actor, now), if id == req then v.refs else edges, req)
  {
    var v := EvaluateTraced(env, objects, objects[id]);
    if id == req {
      WrittenStatus(objects[id], v, actor, now);
      StatusWriteVerdict(env, objects, id, v, actor, now, id);
    } else if req in objects {
      OtherWritten(env, objects, edges, id, v, actor, now, req);
    }
  }

  lemma {:induction false} EdgesOfDecided(env: Env, objects: Objects, ids: seq<Id>, actor: string, now: int, req: Id, edges: set<Id>, i: nat)
    requires Distinct(ids) && i < |ids| && ids[i] == req && forall k :: 0 <= k < |ids| ==> ids[k] in objects
    ensures EdgesAfter(env, objects, ids, actor, now, req, edges) == VerdictAt(env, objects, ids, i, actor, now).refs
    decreases |ids|
  {
    hide EvaluateTraced;
    var n := |ids| - 1;
    if i < n {
      var front := ids[..n];
      assert front[i] == req && front[..i] == ids[..i];
      assert ids[n] != req;
      EdgesOfDecided(env, objects, front, actor, now, req, edges, i);
    } else {
      assert ids[|ids| - 1] == req;
    }
  }

  lemma {:induction false} EdgesOfOthers(env: Env, objects: Objects, ids: seq<Id>, actor: string, now: int, req: Id, edges: set<Id>)
    requires req !in ids && forall k :: 0 <= k < |ids| ==> ids[k] in objects
    ensures EdgesAfter(env, objects, ids, actor, now, req, edges) == edges
    decreases |ids|
  {
    if ids != [] {
      EdgesOfOthers(env, objects, ids[..|ids| - 1], actor, now, req, edges);
    }
  }

  lemma UnrelatedKeepsTargets(a: map<Id, Relation>, b: map<Id, Relation>, ids: seq<Id>, req: Id)
    requires Unrelated(a, ids) == Unrelated(b, ids) && req !in ids
    ensures DepTargets(a, req) == DepTargets(b, req)
  {
    forall k
      ensures k in a && IsDependency(a[k], req) ==> k in b && b[k] == a[k]
      ensures k in b && IsDependency(b[k], req) ==> k in a && a[k] == b[k]
    {
      SameEntry(Unrelated(a, ids), Unrelated(b, ids), k);
    }
  }

  /** Evaluating any list of requirements keeps every requirement honest, the listed ones and the others. */
  lemma EvaluateKeepsHonest(env: Env, was: Graph, g: Graph, ids: seq<Id>, verdicts: seq<Verdict>, actor: string, now: int, req: Id)
    requires Geometric(env) && Distinct(ids) && Evaluated(env, was, g, ids, verdicts, actor, now)
    requires Honest(env, was, req) && UnreadThroughout(env, was.objects, ids, actor, now, req)
    ensures Honest(env, g, req)
  {
    EvaluatedExist(env, was, g, ids, verdicts, actor, now);
    var edges := DepTargets(was.relations, req);
    WrittenIsCurrent(env, was.objects, ids, actor, now, req, edges);
    if req in ids {
      var i :| 0 <= i < |ids| && ids[i] == req;
      assert DecidedAt(env, was, g, ids, verdicts, i, actor, now);
      EdgesOfDecided(env, was.objects, ids, actor, now, req, edges, i);
    } else {
      EdgesOfOthers(env, was.objects, ids, actor, now, req, edges);
      UnrelatedKeepsTargets(was.relations, g.relations, ids, req);
    }
  }

  lemma {:induction false} WrittenExpression(env: Env, objects: Objects, ids: seq<Id>, actor: string, now: int, req: Id)
    requires req in objects
    ensures ExpressionOf(Written(env, objects, ids, actor, now)[req]) == ExpressionOf(objects[req])
    decreases |ids|
  {
    if ids != [] {
      var before := Written(env, objects, ids[..|ids| - 1], actor, now);
      WrittenExpression(env, objects, ids[..|ids| - 1], actor, now, req);
      if req in before {
        WrittenStatus(before[req], EvaluateTraced(env, before, before[req]), actor, now);
      }
    }
  }

  /** An expression that names no status component is never in the way. */
  lemma {:induction false} UnnamedThroughout(env: Env, objects: Objects, ids: seq<Id>, actor: string, now: int, req: Id)
    requires req in objects ==> NamesNoStatus(env, ExpressionOf(objects[req]))
    ensures UnreadThroughout(env, objects, ids, actor, now, req)
    decreases |ids|
  {
    if ids != [] {
      var front := ids[..|ids| - 1];
      var here := Written(env, objects, front, actor, now);
      UnnamedThroughout(env, objects, front, actor, now, req);
      if req in here {
        WrittenExpression(env, objects, front, actor, now, req);
        UnnamedUnread(env, here, here[req], ids[|ids| - 1]);
      }
    }
  }

  // ----- one command -------------------------------------------------------------

  /** Updates keep the id of the object they change. */
  predicate KeepsId(op: StateOp) {
    op.SetObject? && op.objBefore.Some? && op.objAfter.Some? ==> op.objBefore.value.id == op.objAfter.value.id
  }

  ghost predicate AllKeepId(ops: seq<StateOp>) {
    forall i :: 0 <= i < |ops| ==> KeepsId(ops[i])
  }

  lemma {:induction false} RelationOpsKeepId(g: Graph, order: seq<Id>)
    ensures AllKeepId(RelationOps(g, order))
    decreases |order|
  {
    if order != [] {
      if order[0] !in g.relations {
        RelationOpsKeepId(g, order[1..]);
      } else {
        RelationOpsKeepId(Apply(g, SetRelation(Some(g.relations[order[0]]), None), true), order[1..]);
      }
    }
  }

  lemma {:induction false} CallKeepsId(g: Graph, actor: string, call: Call)
    requires Sound(g) && LegalCall(g, actor, call)
    ensures AllKeepId(CallOps(g, actor, call))
    decreases call
  {
    match call
    case RemoveObject(id, order) => RelationOpsKeepId(g, order);
    case RunSub(inner) => CallsKeepId(g, actor, inner);
    case _ =>
  }

  lemma {:induction false} CallsKeepId(g: Graph, actor: string, calls: seq<Call>)
    requires Sound(g) && LegalCalls(g, actor, calls)
    ensures AllKeepId(CallsOps(g, actor, calls))
    decreases calls
  {
    if calls != [] {
      CallKeepsId(g, actor, calls[0]);
      CallTrail(g, actor, calls[0]);
      TrailEndsSound(g, CallOps(g, actor, calls[0]));
      CallsKeepId(Forward(g, CallOps(g, actor, calls[0])), actor, calls[1..]);
    }
  }

  /** An object no op of a list sets or deletes stays as it is. */
  lemma {:induction false} UntouchedSame(g: Graph, ops: seq<StateOp>, i: Id)
    requires AllKeepId(ops) && i !in TouchedBy(ops)
    ensures i in Forward(g, ops).objects <==> i in g.objects
    ensures i in g.objects ==> Forward(g, ops).objects[i] == g.objects[i]
    decreases |ops|
  {
    if ops != [] {
      assert ops[0] in ops && KeepsId(ops[0]);
      assert forall op :: op in ops[1..] ==> op in ops;
      UntouchedSame(Apply(g, ops[0], true), ops[1..], i);
    }
  }

  /** The requirement still shows its verdict when the command is through. */
  predicate StillShown(handled: Graph, touched: set<Id>, req: Id) {
    req in handled.objects && Settled(handled.objects[req]) && req !in ToMark(handled, touched)
  }

  /**
   What a command owes a requirement that still shows its verdict afterwards: the names and
   types its evaluation asks for have the same answers, its edges still cover its trace, and
   it has not read a number where a mark now puts its note.
   */
  ghost predicate Respects(env: Env, g: Graph, handled: Graph, ops: seq<StateOp>, req: Id) {
    StillShown(handled, TouchedBy(ops), req) && req in g.objects ==>
      && SameAnswers(env, g.objects, handled.objects, Lookups(env, g.objects, g.objects[req]))
      && EvaluateTraced(env, g.objects, g.objects[req]).refs <= DepTargets(handled.relations, req)
      && forall i :: i in ToMark(handled, TouchedBy(ops)) ==> !ReadsVerdict(env, g.objects, g.objects[req], i)
  }

  /** Nothing that an unmarked, settled requirement depends on was touched. */
  lemma UnmarkedMeansUntouched(g: Graph, touched: set<Id>, req: Id, target: Id)
    requires req in g.objects && Settled(g.objects[req]) && req !in ToMark(g, touched)
    requires target in DepTargets(g.relations, req)
    ensures req !in touched && target !in touched
  {
    var k :| k in g.relations && IsDependency(g.relations[k], req) && g.relations[k].to == target;
    assert DependsInto(g.relations[k], touched) ==> req in ToMark(g, touched);
  }

  /** Marking keeps the table, every object it does not select, and of the others all but the status component. */
  lemma MarkedTable(g: Graph, ids: set<Id>, actor: string, now: int)
    ensures SameTable(g.objects, Marked(g, ids, actor, now).objects)
    ensures forall i :: i in g.objects && i !in ids ==> Marked(g, ids, actor, now).objects[i] == g.objects[i]
    ensures forall i :: AlikeBut(Components(g.objects, i), Components(Marked(g, ids, actor, now).objects, i), REQUIREMENT_STATUS)
  {
  }

  /** A mark puts strings where the status is, which was one, and where the verdict is. */
  lemma StaleFields(data: Json, name: string)
    requires data.Obj? && "status" in data.fields && data.fields["status"].Str?
    ensures var after := StaleData(data);
            && after.Obj? && (name in after.fields <==> name in data.fields || name == "verdict")
            && (name == "verdict" ==> after.fields[name].Str?)
            && (name == "status" ==> after.fields[name].Str?)
            && (name != "verdict" && name != "status" && name in data.fields ==> after.fields[name] == data.fields[name])
  {
  }

  predicate NoNumber(val: Option<Json>) {
    val.None? || !val.value.Number?
  }

  /** The same value, or two that are there and are no numbers: reading a field cannot tell. */
  predicate ReadsAlike(before: Option<Json>, after: Option<Json>) {
    before == after || (before.Some? && after.Some? && NoNumber(before) && NoNumber(after))
  }

  lemma StaleWalk(data: Json, name: string, deeper: seq<string>)
    requires data.Obj? && "status" in data.fields && data.fields["status"].Str?
    ensures var before, after := WalkPath(data, [name] + deeper), WalkPath(StaleData(data), [name] + deeper);
            if name == "verdict" then NoNumber(after)
            else ReadsAlike(before, after)
  {
    var marked := StaleData(data);
    assert ([name] + deeper)[0] == name && ([name] + deeper)[1..] == deeper;
    StaleFields(data, name);
    assert name in marked.fields ==> WalkPath(marked, [name] + deeper) == WalkPath(marked.fields[name], deeper);
    assert name in data.fields ==> WalkPath(data, [name] + deeper) == WalkPath(data.fields[name], deeper);
  }

  lemma StaleWalks(data: Json, rest: seq<string>)
    requires data.Obj? && "status" in data.fields && data.fields["status"].Str?
    ensures var before, after := WalkPath(data, rest), WalkPath(StaleData(data), rest);
            if rest != [] && rest[0] == "verdict" then NoNumber(after) else ReadsAlike(before, after)
  {
    if rest != [] {
      assert rest == [rest[0]] + rest[1..];
      StaleWalk(data, rest[0], rest[1..]);
    }
  }

  lemma FieldWalks(a: map<string, Component>, b: map<string, Component>, segments: seq<string>, path: string)
    requires segments != [] && segments[0] in a && segments[0] in b
    ensures var before, after := WalkPath(a[segments[0]].data, segments[1..]), WalkPath(b[segments[0]].data, segments[1..]);
            && (NoNumber(after) ==> FieldAt(b, segments, path).Err?)
            && (ReadsAlike(before, after) ==> FieldAt(a, segments, path) == FieldAt(b, segments, path))
  {
  }

  /** A mark is invisible to a read of any field but the verdict, and there is no number left in that one. */
  lemma MarkedField(o: Object, actor: string, now: int, path: string)
    requires Settled(o)
    ensures var marked := MarkStale(o).Touch(actor, now).components;
            if OnVerdict(path) then FieldValue(marked, path).Err? else FieldValue(marked, path) == FieldValue(o.components, path)
  {
    var marked := MarkStale(o).Touch(actor, now).components;
    var segments := Split(path, '.');
    assert marked.Keys == o.components.Keys;
    if segments[0] == REQUIREMENT_STATUS {
      StaleWalks(o.components[REQUIREMENT_STATUS].data, segments[1..]);
      FieldWalks(o.components, marked, segments, path);
    }
  }

  /** A requirement still settled after marking was settled before and was not selected. */
  lemma SettledUnmarked(g: Graph, touched: set<Id>, actor: string, now: int, req: Id)
    requires req in g.objects && Settled(Marked(g, ToMark(g, touched), actor, now).objects[req])
    ensures req !in ToMark(g, touched) && Settled(g.objects[req]) && req !in touched
  {
    if req in ToMark(g, touched) {
      MarkStaleStatus(g.objects[req], actor, now);
    }
  }

  /**
   After any respectful command, marking included, an honest requirement is still honest:
   if it is not stale, evaluating it again would answer the same.
   */
  lemma CommandKeepsHonest(env: Env, g: Graph, command: string, actor: string, calls: seq<Call>, now: int, req: Id)
    requires Geometric(env) && Sound(g) && LegalCalls(g, actor, calls) && Honest(env, g, req) && !WritesStatus(command)
    requires var ops := CallsOps(g, actor, calls); Respects(env, g, Forward(g, ops), ops, req)
    ensures var ops := CallsOps(g, actor, calls);
            var handled := Forward(g, ops);
            Honest(env, Forward(handled, MarkOps(command, handled, ops, actor, now)), req)
  {
    var ops := CallsOps(g, actor, calls);
    var handled := Forward(g, ops);
    CallsTrail(g, actor, calls);
    TrailEndsSound(g, ops);
    CallsKeepId(g, actor, calls);
    MarkOpsEffect(command, handled, ops, actor, now);
    MarkedHonest(env, g, ops, actor, now, req);
  }

  lemma MarkedHonest(env: Env, g: Graph, ops: seq<StateOp>, actor: string, now: int, req: Id)
    requires Geometric(env) && Honest(env, g, req) && AllKeepId(ops) && Respects(env, g, Forward(g, ops), ops, req)
    ensures Honest(env, Marked(Forward(g, ops), ToMark(Forward(g, ops), TouchedBy(ops)), actor, now), req)
  {
    var handled := Forward(g, ops);
    var touched := TouchedBy(ops);
    var after := Marked(handled, ToMark(handled, touched), actor, now);
    if req in after.objects && Settled(after.objects[req]) {
      SettledUnmarked(handled, touched, actor, now, req);
      UntouchedSame(g, ops, req);
      MarkedTable(handled, ToMark(handled, touched), actor, now);
      var r := g.objects[req];
      assert after.objects[req] == r;
      VerdictTraces(env, g.objects, r);
      VerdictFollows(env, g.objects, after.objects, r, r);
      forall t | t in Reached(env, g.objects, r)
        ensures TermValue(env, g.objects, t) == TermValue(env, after.objects, t)
      {
        ReachedTermSame(env, g, ops, actor, now, req, t);
      }
    }
  }

  lemma ReachedTermSame(env: Env, g: Graph, ops: seq<StateOp>, actor: string, now: int, req: Id, t: Term)
    requires Geometric(env) && AllKeepId(ops) && req in g.objects && Settled(g.objects[req])
    requires var handled := Forward(g, ops);
             && StillShown(handled, TouchedBy(ops), req) && handled.objects[req] == g.objects[req]
             && Respects(env, g, handled, ops, req)
    requires t in Reached(env, g.objects, g.objects[req])
    ensures var after := Marked(Forward(g, ops), ToMark(Forward(g, ops), TouchedBy(ops)), actor, now);
            TermValue(env, g.objects, t) == TermValue(env, after.objects, t)
  {
    var handled, r := Forward(g, ops), g.objects[req];
    var marks := ToMark(handled, TouchedBy(ops));
    var after := Marked(handled, marks, actor, now);
    MarkedTable(handled, marks, actor, now);
    VerdictTraces(env, g.objects, r);
    forall l | l in TermLookups(env, g.objects, t)
      ensures SameAnswer(env, g.objects, after.objects, l)
    {
      assert l in Lookups(env, g.objects, r);
      assert SameAnswer(env, g.objects, handled.objects, l);
      TableAnswers(env, handled.objects, after.objects, l);
    }
    forall i | i in TermValue(env, g.objects, t).refs
      ensures AlikeBut(Components(g.objects, i), Components(after.objects, i), REQUIREMENT_STATUS)
      ensures Reads(env, g.objects, t, i, REQUIREMENT_STATUS) ==>
        FieldValue(Components(g.objects, i), t.path) == FieldValue(Components(after.objects, i), t.path)
    {
      assert i in EvaluateTraced(env, g.objects, r).refs;
      UnmarkedMeansUntouched(handled, TouchedBy(ops), req, i);
      UntouchedSame(g, ops, i);
      assert Components(g.objects, i) == Components(handled.objects, i);
      if Reads(env, g.objects, t, i, REQUIREMENT_STATUS) && i in marks {
        assert !ReadsVerdict(env, g.objects, r, i);
        assert !OnVerdict(t.path);
        MarkedField(handled.objects[i], actor, now, t.path);
      }
    }
    TermFrame(env, g.objects, after.objects, t, REQUIREMENT_STATUS);
  }

  // ----- whole runs ----------------------------------------------------------------

  /** The live graph and every graph undo and redo can lead back to are honest. */
  ghost predicate AlwaysHonest(env: Env, genesis: Graph, st: EngineState, req: Id)
    requires st.cursor <= |st.records|
  {
    && Honest(env, st.graph, req)
    && Honest(env, Base(genesis, st), req)
    && forall k :: 0 <= k <= |st.records| ==> Honest(env, Forward(genesis, AllOps(st.records[..k])), req)
  }

  /** The handler of `requirement.evaluate` did its work, and did not overwrite what `req` had read. */
  ghost predicate EvaluatesFor(env: Env, g: Graph, handled: Graph, actor: string, now: int, req: Id) {
    exists ids: seq<Id>, verdicts: seq<Verdict> ::
      Distinct(ids) && Evaluated(env, g, handled, ids, verdicts, actor, now) && UnreadThroughout(env, g.objects, ids, actor, now, req)
  }

  /**
   What a successful command owes the requirement. Evaluating owes its own contract; a command
   that sets a status by hand must set the true one; any other respects a verdict still shown.
   */
  ghost predicate Owes(env: Env, st: EngineState, ev: Event, req: Id) {
    ev.Execute? && ev.attempt.admission == Admitted && ev.attempt.answer.Ok? ==>
      var a := ev.attempt;
      var ops := CallsOps(st.graph, a.actor, a.calls);
      var handled := Forward(st.graph, ops);
      if a.command == "requirement.evaluate" then EvaluatesFor(env, st.graph, handled, a.actor, a.now, req)
      else if WritesStatus(a.command) then Honest(env, handled, req)
      else Respects(env, st.graph, handled, ops, req)
  }

  ghost predicate OwesAll(env: Env, st: EngineState, events: seq<Event>, req: Id)
    requires st.cursor <= |st.records|
    decreases |events|
  {
    events == [] || (Owes(env, st, events[0], req) && OwesAll(env, Step(st, events[0]), events[1..], req))
  }

  lemma CommitHonest(env: Env, genesis: Graph, st: EngineState, now: int, req: Id)
    requires Inv(genesis, st) && AlwaysHonest(env, genesis, st, req)
    ensures AlwaysHonest(env, genesis, DoCommit(st, now), req)
  {
    var st' := DoCommit(st, now);
    if st'.cursor != st.cursor {
      CommitKeepsInv(genesis, st, now);
      forall k | 0 <= k <= |st'.records|
        ensures Honest(env, Forward(genesis, AllOps(st'.records[..k])), req)
      {
        if k <= st.cursor {
          assert st'.records[..k] == st.records[..k];
        } else {
          assert st'.records[..k] == st'.records[..st'.cursor];
        }
      }
    }
  }

  lemma SameJournalHonest(env: Env, genesis: Graph, st: EngineState, st': EngineState, req: Id)
    requires st.cursor <= |st.records| && Inv(genesis, st') && AlwaysHonest(env, genesis, st, req)
    requires st'.open.None? && |st'.records| == |st.records|
    requires forall i :: 0 <= i < |st.records| ==> st'.records[i].ops == st.records[i].ops
    ensures AlwaysHonest(env, genesis, st', req)
  {
    forall k | 0 <= k <= |st.records|
      ensures AllOps(st'.records[..k]) == AllOps(st.records[..k])
    {
      AllOpsSame(st'.records[..k], st.records[..k]);
    }
  }

  /** The graph a success leaves, marks included, is honest. */
  lemma SuccessHonest(env: Env, st: EngineState, a: Attempt, req: Id)
    requires Geometric(env) && Sound(st.graph) && LegalCalls(st.graph, a.actor, a.calls)
    requires a.admission == Admitted && a.answer.Ok? && Honest(env, st.graph, req) && Owes(env, st, Execute(a), req)
    ensures var ops := CallsOps(st.graph, a.actor, a.calls);
            var handled := Forward(st.graph, ops);
            Honest(env, Forward(handled, MarkOps(a.command, handled, ops, a.actor, a.now)), req)
  {
    var g := st.graph;
    var handled := Forward(g, CallsOps(g, a.actor, a.calls));
    if a.command == "requirement.evaluate" {
      var ids: seq<Id>, verdicts: seq<Verdict> :| Distinct(ids) && Evaluated(env, g, handled, ids, verdicts, a.actor, a.now)
        && UnreadThroughout(env, g.objects, ids, a.actor, a.now, req);
      EvaluateKeepsHonest(env, g, handled, ids, verdicts, a.actor, a.now, req);
    } else if !WritesStatus(a.command) {
      CommandKeepsHonest(env, g, a.command, a.actor, a.calls, a.now, req);
    }
  }

  lemma ExecuteHonest(env: Env, genesis: Graph, st: EngineState, a: Attempt, req: Id)
    requires Geometric(env) && Inv(genesis, st) && Legal(st, Execute(a))
    requires AlwaysHonest(env, genesis, st, req) && Owes(env, st, Execute(a), req)
    ensures AlwaysHonest(env, genesis, DoExecute(st, a), req)
  {
    if a.admission == Admitted {
      GraphSound(genesis, st);
      if a.answer.Ok? {
        var st' := Opened(st, a);
        SuccessHonest(env, st, a, req);
        if st.open.None? {
          var begun := st.(open := Some(WorkingTxn(st, a)));
          ExecuteKeepsInv(genesis, begun, a);
          CommitHonest(env, genesis, st', a.now, req);
        }
      } else {
        FailureReverts(genesis, st, a);
      }
    }
  }

  /** The state of a successful command before its own transaction, if it has one, is committed. */
  function Opened(st: EngineState, a: Attempt): EngineState
    requires st.cursor <= |st.records| && a.admission == Admitted && a.answer.Ok?
  {
    DoExecute(st.(open := Some(WorkingTxn(st, a))), a)
  }

  lemma StepHonest(env: Env, genesis: Graph, st: EngineState, ev: Event, req: Id)
    requires Geometric(env) && Inv(genesis, st) && Legal(st, ev) && AlwaysHonest(env, genesis, st, req) && Owes(env, st, ev, req)
    ensures AlwaysHonest(env, genesis, Step(st, ev), req)
  {
    match ev
    case Execute(a) => ExecuteHonest(env, genesis, st, a, req);
    case Begin(_, _, _, _) =>
    case Commit(now) => CommitHonest(env, genesis, st, now, req);
    case Rollback => RollbackHonest(env, genesis, st, req);
    case Undo => UndoHonest(env, genesis, st, req);
    case Redo => RedoHonest(env, genesis, st, req);
  }

  lemma RollbackHonest(env: Env, genesis: Graph, st: EngineState, req: Id)
    requires Inv(genesis, st) && AlwaysHonest(env, genesis, st, req)
    ensures AlwaysHonest(env, genesis, DoRollback(st), req)
  {
    RollbackKeepsInv(genesis, st);
  }

  lemma UndoHonest(env: Env, genesis: Graph, st: EngineState, req: Id)
    requires Inv(genesis, st) && AlwaysHonest(env, genesis, st, req)
    ensures AlwaysHonest(env, genesis, DoUndo(st), req)
  {
    if DoUndo(st) != st {
      UndoKeepsInv(genesis, st);
      SameJournalHonest(env, genesis, st, DoUndo(st), req);
    }
  }

  lemma RedoHonest(env: Env, genesis: Graph, st: EngineState, req: Id)
    requires Inv(genesis, st) && AlwaysHonest(env, genesis, st, req)
    ensures AlwaysHonest(env, genesis, DoRedo(st), req)
  {
    if DoRedo(st) != st {
      RedoKeepsInv(genesis, st);
      SameJournalHonest(env, genesis, st, DoRedo(st), req);
    }
  }

  lemma {:induction false} RunHonest(env: Env, genesis: Graph, st: EngineState, events: seq<Event>, req: Id)
    requires Geometric(env) && Inv(genesis, st) && LegalRun(st, events) && AlwaysHonest(env, genesis, st, req) && OwesAll(env, st, events, req)
    ensures AlwaysHonest(env, genesis, Run(st, events), req)
    decreases |events|
  {
    if events != [] {
      StepHonest(env, genesis, st, events[0], req);
      StepKeepsInv(genesis, st, events[0]);
      RunHonest(env, genesis, Step(st, events[0]), events[1..], req);
    }
  }

  /**
   In every state of every run, undone and redone ones included, a requirement that shows
   pass or fail would evaluate to just that. The run may start with an empty project and
   create, evaluate, rename and delete whatever it likes; only while the requirement shows a
   verdict, and only where the verdict survives the command, is anything asked of a command.
   */
  lemma VerdictsAreNeverOutdated(env: Env, genesis: Graph, events: seq<Event>, req: Id)
    requires Geometric(env) && Sound(genesis) && LegalRun(Start(genesis), events)
    requires Honest(env, genesis, req) && OwesAll(env, Start(genesis), events, req)
    ensures ShownRight(env, Run(Start(genesis), events).graph.objects, req)
  {
    StartInv(genesis);
    assert AlwaysHonest(env, genesis, Start(genesis), req);
    RunHonest(env, genesis, Start(genesis), events, req);
  }

  // ----- runs of evaluations and edits -----------------------------------------------------

  /** The calls only edit objects, and leave their names and types alone. */
  ghost predicate EditsOnly(g: Graph, actor: string, calls: seq<Call>)
    decreases |calls|
  {
    calls == [] ||
    (&& calls[0].UpdateObject?
     && (calls[0].id in g.objects ==>
           calls[0].edited.name == g.objects[calls[0].id].name && calls[0].edited.typeId == g.objects[calls[0].id].typeId)
     && EditsOnly(Forward(g, CallOps(g, actor, calls[0])), actor, calls[1..]))
  }

  lemma {:induction false} EditsKeepTable(g: Graph, actor: string, calls: seq<Call>)
    requires EditsOnly(g, actor, calls) && LegalCalls(g, actor, calls)
    ensures var handled := Forward(g, CallsOps(g, actor, calls)); SameTable(g.objects, handled.objects) && handled.relations == g.relations
    decreases |calls|
  {
    if calls != [] {
      var first := CallOps(g, actor, calls[0]);
      OneEdit(g, actor, calls[0]);
      EditsKeepTable(Forward(g, first), actor, calls[1..]);
      ForwardConcat(g, first, CallsOps(Forward(g, first), actor, calls[1..]));
    }
  }

  lemma OneEdit(g: Graph, actor: string, call: Call)
    requires LegalCall(g, actor, call) && call.UpdateObject?
    requires call.id in g.objects ==> call.edited.name == g.objects[call.id].name && call.edited.typeId == g.objects[call.id].typeId
    ensures var after := Forward(g, CallOps(g, actor, call)); SameTable(g.objects, after.objects) && after.relations == g.relations
  {
    if call.id in g.objects {
      TrailOne(g, CallOps(g, actor, call)[0]);
      assert CallOps(g, actor, call) == [CallOps(g, actor, call)[0]];
    }
  }

  /** A success is an evaluation or only edits, and the requirement's expression names no status component. */
  ghost predicate Gentle(env: Env, st: EngineState, ev: Event, req: Id) {
    ev.Execute? && ev.attempt.admission == Admitted && ev.attempt.answer.Ok? ==>
      var a, g := ev.attempt, st.graph;
      && (req in g.objects ==> NamesNoStatus(env, ExpressionOf(g.objects[req])))
      && if a.command == "requirement.evaluate" then EvaluatesSome(env, g, Forward(g, CallsOps(g, a.actor, a.calls)), a.actor, a.now)
         else !WritesStatus(a.command) && EditsOnly(g, a.actor, a.calls)
  }

  /** What the handler of `requirement.evaluate` guarantees. */
  ghost predicate EvaluatesSome(env: Env, g: Graph, handled: Graph, actor: string, now: int) {
    exists ids: seq<Id>, verdicts: seq<Verdict> :: Distinct(ids) && Evaluated(env, g, handled, ids, verdicts, actor, now)
  }

  ghost predicate GentleAll(env: Env, st: EngineState, events: seq<Event>, req: Id)
    requires st.cursor <= |st.records|
    decreases |events|
  {
    events == [] || (Gentle(env, st, events[0], req) && GentleAll(env, Step(st, events[0]), events[1..], req))
  }

  lemma UnnamedVerdict(env: Env, objects: Objects, req: Object, id: Id)
    requires NamesNoStatus(env, ExpressionOf(req))
    ensures !ReadsVerdict(env, objects, req, id)
  {
    VerdictTraces(env, objects, req);
  }

  lemma EditsRespect(env: Env, g: Graph, actor: string, calls: seq<Call>, req: Id)
    requires Sound(g) && LegalCalls(g, actor, calls) && EditsOnly(g, actor, calls) && Honest(env, g, req)
    requires req in g.objects ==> NamesNoStatus(env, ExpressionOf(g.objects[req]))
    ensures var ops := CallsOps(g, actor, calls); Respects(env, g, Forward(g, ops), ops, req)
  {
    var ops := CallsOps(g, actor, calls);
    var handled := Forward(g, ops);
    if StillShown(handled, TouchedBy(ops), req) && req in g.objects {
      EditsKeepTable(g, actor, calls);
      TableAnswersAll(env, g.objects, handled.objects);
      CallsKeepId(g, actor, calls);
      UntouchedSame(g, ops, req);
      forall i
        ensures !ReadsVerdict(env, g.objects, g.objects[req], i)
      {
        UnnamedVerdict(env, g.objects, g.objects[req], i);
      }
    }
  }

  lemma GentleOwes(env: Env, genesis: Graph, st: EngineState, ev: Event, req: Id)
    requires Inv(genesis, st) && Legal(st, ev) && Honest(env, st.graph, req) && Gentle(env, st, ev, req)
    ensures Owes(env, st, ev, req)
  {
    if ev.Execute? && ev.attempt.admission == Admitted && ev.attempt.answer.Ok? {
      var a, g := ev.attempt, st.graph;
      GraphSound(genesis, st);
      if a.command == "requirement.evaluate" {
        var handled := Forward(g, CallsOps(g, a.actor, a.calls));
        var ids: seq<Id>, verdicts: seq<Verdict> :| Distinct(ids) && Evaluated(env, g, handled, ids, verdicts, a.actor, a.now);
        UnnamedThroughout(env, g.objects, ids, a.actor, a.now, req);
      } else {
        EditsRespect(env, g, a.actor, a.calls, req);
      }
    }
  }

  lemma {:induction false} GentleOwesAll(env: Env, genesis: Graph, st: EngineState, events: seq<Event>, req: Id)
    requires Geometric(env) && Inv(genesis, st) && LegalRun(st, events) && AlwaysHonest(env, genesis, st, req) && GentleAll(env, st, events, req)
    ensures OwesAll(env, st, events, req)
    decreases |events|
  {
    if events != [] {
      GentleOwes(env, genesis, st, events[0], req);
      StepHonest(env, genesis, st, events[0], req);
      StepKeepsInv(genesis, st, events[0]);
      GentleOwesAll(env, genesis, Step(st, events[0]), events[1..], req);
    }
  }

  /**
   Nothing is left to owe where commands only evaluate and edit: through any number of
   evaluations, edits of any components, transactions, failures, undos and redos, what a
   requirement shows is what a new evaluation would say.
   */
  lemma EditsNeverOutdate(env: Env, genesis: Graph, events: seq<Event>, req: Id)
    requires Geometric(env) && Sound(genesis) && LegalRun(Start(genesis), events)
    requires Honest(env, genesis, req) && GentleAll(env, Start(genesis), events, req)
    ensures ShownRight(env, Run(Start(genesis), events).graph.objects, req)
  {
    StartInv(genesis);
    assert AlwaysHonest(env, genesis, Start(genesis), req);
    GentleOwesAll(env, genesis, Start(genesis), events, req);
    VerdictsAreNeverOutdated(env, genesis, events, req);
  }
}
