/** A run whose goal holds when the loop ends and no longer holds of what is committed. */
module AgentGoalExample {
  import opened Prelude
  import opened ProjectGraph
  import opened Calls
  import opened Staleness
  import opened EngineModel
  import opened EngineRuns
  import opened Requirement
  import opened RequirementPrinter
  import opened FreshnessChanges
  import opened FreshnessExamples
  import opened AgentGoal

  function Updating(command: string, edited: Object, actor: string, now: int): Event {
    Doing(command, Call.UpdateObject(edited.id, edited, now), actor, now)
  }

  /** A project of this one object. */
  predicate Only(g: Graph, o: Object) {
    g.objects == map[o.id := o] && g.relations == map[]
  }

  lemma UpdateStep(st: EngineState, o: Object, command: string, edited: Object, actor: string, now: int)
    requires st.cursor <= |st.records| && Only(st.graph, o) && edited.id == o.id && !Settled(edited) && !WritesStatus(command)
    ensures Legal(st, Updating(command, edited, actor, now))
    ensures Only(Step(st, Updating(command, edited, actor, now)).graph, edited.Touch(actor, now))
  {
    var g, ev := st.graph, Updating(command, edited, actor, now);
    OneCallIsLegal(g, actor, ev.attempt.calls[0]);
    ExecuteLeaves(st, ev.attempt);
    UpdateLeaves(g, command, edited, actor, now);
    NothingMarked(g, edited.Touch(actor, now), actor, now);
  }

  lemma CreateStep(st: EngineState, o: Object, command: string, actor: string, now: int)
    requires st.cursor <= |st.records| && st.graph.objects == map[] && st.graph.relations == map[] && !Settled(o) && !WritesStatus(command)
    ensures Legal(st, Doing(command, InsertObject(o), actor, now))
    ensures Only(Step(st, Doing(command, InsertObject(o), actor, now)).graph, o)
  {
    var g, ev := st.graph, Doing(command, InsertObject(o), actor, now);
    OneCallIsLegal(g, actor, ev.attempt.calls[0]);
    ExecuteLeaves(st, ev.attempt);
    CreationLeaves(g, command, o, actor, now);
    NothingMarked(g, o, actor, now);
  }

  lemma OneCallIsLegal(g: Graph, actor: string, call: Call)
    requires LegalCall(g, actor, call)
    ensures LegalCalls(g, actor, [call])
  {
    assert [call][1..] == [];
  }

  lemma NothingMarked(g: Graph, o: Object, actor: string, now: int)
    requires g.objects.Keys <= {o.id} && g.relations == map[] && !Settled(o)
    ensures Only(StoredAndMarked(g, o, actor, now), o)
  {
    assert Stored(g, o).objects == map[o.id := o];
    assert ToMark(Stored(g, o), {o.id}) == {};
  }

  /** What the run does up to its last look at the goal: it renames its task object and puts 1 at the status. */
  function Played(task: Object, name: string, actor: string, now: int): seq<Event> {
    [Begin(0, actor, "", now),
     Doing("object.create", InsertObject(task), actor, now),
     Updating("object.rename", task.(name := name), actor, now),
     Updating("object.set_property", One(task, name, actor, now), actor, now)]
  }

  function One(task: Object, name: string, actor: string, now: int): Object {
    PutStatus(task.(name := name).Touch(actor, now), Number(1.0))
  }

  /** What it does afterwards. */
  function Closing(o: Object, actor: string, now: int): seq<Event> {
    [Updating("object.set_property", TaskDone(o), actor, now), Commit(now)]
  }

  /** Is this the status of the task object, wanted to be 1? */
  predicate Wants(goal: string, name: string) {
    FieldTreeOk(name, AGENT_TASK_INFO, "status") && goal == OrText(FieldTree(name, AGENT_TASK_INFO, "status"))
  }

  lemma GoalOfOne(env: Env, g: Graph, o: Object, goal: string)
    requires GoodEnv(env) && Only(g, o) && Wants(goal, o.name)
    requires AGENT_TASK_INFO in o.components && o.components[AGENT_TASK_INFO].data.Obj?
    ensures var fields, status := o.components[AGENT_TASK_INFO].data.fields, EvalGoal(env, g.objects, goal).status;
            && ("status" in fields && fields["status"] == Number(1.0) ==> status == Pass)
            && ("status" !in fields || !fields["status"].Number? ==> status == Unknown)
  {
    FieldTreeStatus(env, o, Probe(goal), AGENT_TASK_INFO, "status");
  }

  predicate IsTask(o: Object) {
    AGENT_TASK_INFO in o.components && o.components[AGENT_TASK_INFO].data.Obj? && REQUIREMENT_STATUS !in o.components
  }

  lemma PutKeepsTask(o: Object, value: Json)
    requires IsTask(o)
    ensures IsTask(PutStatus(o, value)) && PutStatus(o, value).name == o.name && PutStatus(o, value).id == o.id
    ensures "status" in PutStatus(o, value).components[AGENT_TASK_INFO].data.fields
    ensures PutStatus(o, value).components[AGENT_TASK_INFO].data.fields["status"] == value
  {
    NotGeometry();
  }

  lemma PlainCommands()
    ensures !WritesStatus("object.create") && !WritesStatus("object.rename") && !WritesStatus("object.set_property")
  {
    assert "object.create"[0] == 'o' && "object.rename"[0] == 'o' && "object.set_property"[0] == 'o';
    assert "requirement.evaluate"[0] == 'r' && "requirement.set_status"[0] == 'r';
  }

  /** The run is legal, and where it leads. */
  lemma PlayedLeads(g: Graph, task: Object, name: string, actor: string, now: int)
    requires g.objects == map[] && g.relations == map[] && IsTask(task)
    ensures LegalRun(Start(g), Played(task, name, actor, now))
    ensures Only(Run(Start(g), Played(task, name, actor, now)).graph, One(task, name, actor, now).Touch(actor, now))
  {
    var evs := Played(task, name, actor, now);
    var s0 := Start(g);
    var s1 := Step(s0, evs[0]);
    var s2 := Step(s1, evs[1]);
    var s3 := Step(s2, evs[2]);
    PlainCommands();
    CreateStep(s1, task, "object.create", actor, now);
    UpdateStep(s2, task, "object.rename", task.(name := name), actor, now);
    PutKeepsTask(task.(name := name).Touch(actor, now), Number(1.0));
    UpdateStep(s3, task.(name := name).Touch(actor, now), "object.set_property", One(task, name, actor, now), actor, now);
    FourSteps(s0, evs);
  }

  lemma FourSteps(st: EngineState, evs: seq<Event>)
    requires |evs| == 4 && st.cursor <= |st.records|
    ensures Run(st, evs) == Step(Step(Step(Step(st, evs[0]), evs[1]), evs[2]), evs[3])
    ensures LegalRun(st, evs) <==>
      Legal(st, evs[0]) && Legal(Step(st, evs[0]), evs[1]) && Legal(Step(Step(st, evs[0]), evs[1]), evs[2])
      && Legal(Step(Step(Step(st, evs[0]), evs[1]), evs[2]), evs[3])
  {
    var s1 := Step(st, evs[0]);
    var s2 := Step(s1, evs[1]);
    var s3 := Step(s2, evs[2]);
    RunFirst(st, evs[0], evs[1..]);
    assert evs == [evs[0]] + evs[1..] && evs[1..] == [evs[1]] + evs[2..] && evs[2..] == [evs[2]] + evs[3..] && evs[3..] == [evs[3]] + [];
    RunFirst(s1, evs[1], evs[2..]);
    RunFirst(s2, evs[2], evs[3..]);
    RunFirst(s3, evs[3], []);
  }

  /** The whole run. */
  function Lost(task: Object, name: string, actor: string, now: int): seq<Event> {
    Played(task, name, actor, now) + Closing(One(task, name, actor, now).Touch(actor, now), actor, now)
  }

  /**
   A legal run of the engine from an empty project, with the commands an agent run would issue:
   at the last look at the goal it holds, and of the graph that is then committed it does not.
   */
  lemma GoalIsLost(env: Env, g: Graph, task: Object, name: string, goal: string, actor: string, now: int)
    requires GoodEnv(env) && g.objects == map[] && g.relations == map[] && IsTask(task) && Wants(goal, name)
    ensures LegalRun(Start(g), Lost(task, name, actor, now))
    ensures GoalHolds(env, Run(Start(g), Played(task, name, actor, now)).graph.objects, Some(goal))
    ensures !GoalHolds(env, Run(Start(g), Lost(task, name, actor, now)).graph.objects, Some(goal))
  {
    var looked := Run(Start(g), Played(task, name, actor, now));
    var o := One(task, name, actor, now).Touch(actor, now);
    PlayedLeads(g, task, name, actor, now);
    PutKeepsTask(task.(name := name).Touch(actor, now), Number(1.0));
    GoalOfOne(env, looked.graph, o, goal);
    ClosingLoses(env, looked, o, goal, actor, now);
    RunConcat(Start(g), Played(task, name, actor, now), Closing(o, actor, now));
  }

  lemma ClosingLoses(env: Env, st: EngineState, o: Object, goal: string, actor: string, now: int)
    requires GoodEnv(env) && st.cursor <= |st.records| && Only(st.graph, o) && IsTask(o) && Wants(goal, o.name)
    ensures LegalRun(st, Closing(o, actor, now))
    ensures !GoalHolds(env, Run(st, Closing(o, actor, now)).graph.objects, Some(goal))
  {
    PutKeepsTask(o, Str("succeeded"));
    PlainCommands();
    UpdateStep(st, o, "object.set_property", TaskDone(o), actor, now);
    var closed := Step(st, Closing(o, actor, now)[0]);
    GoalOfOne(env, closed.graph, TaskDone(o).Touch(actor, now), goal);
    TwoSteps(st, Closing(o, actor, now));
  }

  lemma TwoSteps(st: EngineState, evs: seq<Event>)
    requires |evs| == 2 && st.cursor <= |st.records| && evs[1].Commit?
    ensures Run(st, evs).graph == Step(st, evs[0]).graph
    ensures LegalRun(st, evs) <==> Legal(st, evs[0])
  {
    assert evs == [evs[0]] + evs[1..] && evs[1..] == [evs[1]] + [];
    RunFirst(st, evs[0], evs[1..]);
    RunFirst(Step(st, evs[0]), evs[1], []);
  }
}
