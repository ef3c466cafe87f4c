/**
 The agent's goal predicate, and what becomes of it when the run, after its last look at the
 goal, marks its own task object done.
 */
module AgentGoal {
  import opened Prelude
  import opened ProjectGraph
  import opened Staleness
  import opened Text
  import opened Requirement
  import opened RequirementTrace
  import opened PropertyPath
  import opened Freshness
  import opened FreshnessChanges

  const AGENT_TASK_INFO := "core:agent-task-info"

  // ----- the goal --------------------------------------------------------------------------

  /** A requirement that is in no project, carrying the goal as its expression. */
  function Probe(expr: string): Object {
    Object(0, REQUIREMENT, "agent-goal",
           map[REQUIREMENT_EXPR := Component(REQUIREMENT_EXPR, 1, Json.Obj(map["expression" := Str(expr)]))], [],
           Meta(0, "agent:goal-probe", 0, "agent:goal-probe", None, 0))
  }

  function EvalGoal(env: Env, objects: Objects, expr: string): Verdict {
    EvaluateTraced(env, objects, Probe(expr))
  }

  predicate GoalHolds(env: Env, objects: Objects, goal: Option<string>) {
    goal.Some? ==> EvalGoal(env, objects, goal.value).status == Pass
  }

  // ----- the task object is marked done ------------------------------------------------------

  function StatusData(data: Json, value: Json): Json {
    if data.Obj? then Obj(data.fields["status" := value]) else data
  }

  function TaskInfo(o: Object): Component {
    if AGENT_TASK_INFO in o.components then o.components[AGENT_TASK_INFO] else Component(AGENT_TASK_INFO, 1, Obj(map[]))
  }

  function PutStatus(o: Object, value: Json): Object {
    o.(components := o.components[AGENT_TASK_INFO := TaskInfo(o).(data := StatusData(TaskInfo(o).data, value))])
  }

  /** It is what setting the property does. */
  lemma PutIsSet(o: Object, value: Json)
    ensures WithProperty(o, AGENT_TASK_INFO, "status", value) == Some(PutStatus(o, value))
  {
    assert Split("status", '.') == ["status"];
  }

  function TaskDone(o: Object): Object {
    PutStatus(o, Str("succeeded"))
  }

  /** The graph after that command, staleness marks included. */
  function AfterDone(g: Graph, task: Id, actor: string, now: int): Graph
    requires task in g.objects
  {
    StoredAndMarked(g, TaskDone(g.objects[task]).Touch(actor, now), actor, now)
  }

  /** Is it the `status` field of the task info, or something under it? */
  predicate OnTaskStatus(path: string) {
    var segments := Split(path, '.');
    |segments| >= 2 && segments[0] == AGENT_TASK_INFO && segments[1] == "status"
  }

  /** Does the term look for a number in the field that is about to say "succeeded"? */
  predicate ReadsTaskStatus(env: Env, objects: Objects, t: Term, task: Id)
    requires task in objects
  {
    t.FieldOf? && FindNamed(env, objects, t.name) == Some(task) && OnTaskStatus(t.path) && TaskInfo(objects[task]).data.Obj?
  }

  /** Does the term look for a number where a staleness mark will put its note? */
  predicate ReadsNote(env: Env, objects: Objects, t: Term, marks: set<Id>) {
    exists i :: i in marks && TermReadsVerdict(env, objects, t, i)
  }

  /** Writing the status of the task changes what some term of the goal reads. */
  ghost predicate Disturbed(env: Env, g: Graph, task: Id, expr: string)
    requires task in g.objects
  {
    exists t :: t in Reached(env, g.objects, Probe(expr))
      && (ReadsTaskStatus(env, g.objects, t, task) || ReadsNote(env, g.objects, t, DoneMarks(g, task)))
  }

  /** The requirements that marking the task done makes stale. */
  function DoneMarks(g: Graph, task: Id): set<Id>
    requires task in g.objects
  {
    ToMark(Stored(g, TaskDone(g.objects[task]).(id := task)), {task})
  }

  lemma StatusWalk(data: Json, value: Json, rest: seq<string>)
    requires data.Obj? && value.Str?
    ensures var before, after := WalkPath(data, rest), WalkPath(StatusData(data, value), rest);
            if rest != [] && rest[0] == "status" then NoNumber(after) else ReadsAlike(before, after)
  {
    if rest != [] {
      var name, done := rest[0], StatusData(data, value);
      assert name in done.fields ==> WalkPath(done, rest) == WalkPath(done.fields[name], rest[1..]);
      assert name in data.fields ==> WalkPath(data, rest) == WalkPath(data.fields[name], rest[1..]);
    }
  }

  /** A field that answered before answers alike, unless it is the status of a task info that takes one. */
  lemma DoneField(o: Object, path: string)
    requires FieldValue(o.components, path).Ok?
    ensures if OnTaskStatus(path) && TaskInfo(o).data.Obj? then FieldValue(TaskDone(o).components, path).Err?
            else FieldValue(TaskDone(o).components, path) == FieldValue(o.components, path)
  {
    var segments := Split(path, '.');
    var done := TaskDone(o).components;
    assert segments[0] in o.components && segments[0] in done;
    if segments[0] == AGENT_TASK_INFO && TaskInfo(o).data.Obj? {
      StatusWalk(TaskInfo(o).data, Str("succeeded"), segments[1..]);
    } else {
      assert done[segments[0]].data == o.components[segments[0]].data;
    }
    FieldWalks(o.components, done, segments, path);
  }

  /** A term that answered, after the task object was written and before anything is marked. */
  lemma DoneTerm(env: Env, g: Graph, o: Object, t: Term)
    requires Geometric(env) && o.id in g.objects && o.components == TaskDone(g.objects[o.id]).components
    requires o.name == g.objects[o.id].name && o.typeId == g.objects[o.id].typeId
    requires TermValue(env, g.objects, t).result.Ok?
    ensures var mid := Stored(g, o).objects;
            if ReadsTaskStatus(env, g.objects, t, o.id) then TermValue(env, mid, t).result.Err?
            else TermValue(env, mid, t) == TermValue(env, g.objects, t)
  {
    var a, mid := g.objects, Stored(g, o).objects;
    TableAnswersAll(env, a, mid);
    if t.FieldOf? && FindNamed(env, a, t.name) == Some(o.id) {
      assert SameAnswer(env, a, mid, OfName(t.name));
      DoneField(a[o.id], t.path);
    } else {
      forall i | i in TermValue(env, a, t).refs
        ensures AlikeBut(Components(a, i), Components(mid, i), AGENT_TASK_INFO)
      {
      }
      forall i | Reads(env, a, t, i, AGENT_TASK_INFO)
        ensures FieldValue(Components(a, i), t.path) == FieldValue(Components(mid, i), t.path)
      {
      }
      NotGeometry();
      TermFrame(env, a, mid, t, AGENT_TASK_INFO);
    }
  }

  lemma NotGeometry()
    ensures AGENT_TASK_INFO != MESH && AGENT_TASK_INFO != GEOMETRY && AGENT_TASK_INFO != TRANSFORM
    ensures AGENT_TASK_INFO != REQUIREMENT_STATUS
    ensures REQUIREMENT_STATUS != MESH && REQUIREMENT_STATUS != GEOMETRY && REQUIREMENT_STATUS != TRANSFORM
  {
    assert |AGENT_TASK_INFO| == 20 && |MESH| == 9 && |GEOMETRY| == 13 && |TRANSFORM| == 14 && |REQUIREMENT_STATUS| == 23;
  }

  /** A term before and after a set of settled requirements is marked. */
  lemma MarkedTerm(env: Env, mid: Graph, marks: set<Id>, actor: string, now: int, t: Term)
    requires Geometric(env) && forall i :: i in marks ==> i in mid.objects && Settled(mid.objects[i])
    ensures var after := Marked(mid, marks, actor, now).objects;
            if ReadsNote(env, mid.objects, t, marks) then TermValue(env, after, t).result.Err?
            else TermValue(env, after, t) == TermValue(env, mid.objects, t)
  {
    var a, b := mid.objects, Marked(mid, marks, actor, now).objects;
    MarkedTable(mid, marks, actor, now);
    TableAnswersAll(env, a, b);
    if ReadsNote(env, a, t, marks) {
      var i :| i in marks && TermReadsVerdict(env, a, t, i);
      assert SameAnswer(env, a, b, OfName(t.name));
      MarkedField(a[i], actor, now, t.path);
    } else {
      forall i | Reads(env, a, t, i, REQUIREMENT_STATUS)
        ensures FieldValue(Components(a, i), t.path) == FieldValue(Components(b, i), t.path)
      {
        if i in marks {
          assert !TermReadsVerdict(env, a, t, i);
          MarkedField(a[i], actor, now, t.path);
        }
      }
      NotGeometry();
      TermFrame(env, a, b, t, REQUIREMENT_STATUS);
    }
  }

  /** Both steps together. */
  lemma AfterDoneTerm(env: Env, g: Graph, task: Id, actor: string, now: int, t: Term)
    requires Geometric(env) && Sound(g) && task in g.objects && TermValue(env, g.objects, t).result.Ok?
    ensures var b := AfterDone(g, task, actor, now).objects;
            if ReadsTaskStatus(env, g.objects, t, task) || ReadsNote(env, g.objects, t, DoneMarks(g, task)) then TermValue(env, b, t).result.Err?
            else TermValue(env, b, t) == TermValue(env, g.objects, t)
  {
    var o := TaskDone(g.objects[task]).Touch(actor, now);
    var mid := Stored(g, o);
    DoneTerm(env, g, o, t);
    SameMarks(g, task, actor, now);
    MarkedTerm(env, mid, ToMark(mid, {task}), actor, now, t);
    if t.FieldOf? {
      TableAnswers(env, g.objects, mid.objects, OfName(t.name));
    }
  }

  /** Touching the object does not change what is to be marked. */
  lemma SameMarks(g: Graph, task: Id, actor: string, now: int)
    requires Sound(g) && task in g.objects
    ensures ToMark(Stored(g, TaskDone(g.objects[task]).Touch(actor, now)), {task}) == DoneMarks(g, task)
  {
  }

  /**
   A goal that held when the loop ended holds of the committed graph if and only if none of
   its terms reads the status of the task object, or a note that marking writes.
   */
  lemma GoalAfterDone(env: Env, g: Graph, task: Id, actor: string, now: int, expr: string)
    requires Geometric(env) && Sound(g) && task in g.objects && EvalGoal(env, g.objects, expr).status == Pass
    ensures EvalGoal(env, AfterDone(g, task, actor, now).objects, expr).status == Pass <==> !Disturbed(env, g, task, expr)
  {
    var a, b, p := g.objects, AfterDone(g, task, actor, now).objects, Probe(expr);
    VerdictTraces(env, a, p);
    forall t | t in Reached(env, a, p)
      ensures if ReadsTaskStatus(env, a, t, task) || ReadsNote(env, a, t, DoneMarks(g, task)) then TermValue(env, b, t).result.Err?
              else TermValue(env, b, t) == TermValue(env, a, t)
    {
      AfterDoneTerm(env, g, task, actor, now, t);
    }
    VerdictBroken(env, a, b, p);
  }
}
