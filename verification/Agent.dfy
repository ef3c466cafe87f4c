/**
 The bounded agent loop: observe, plan, act, verify, inside one engine transaction, for an
 arbitrary planner and arbitrary command handlers.
 */
module Agent {
  import opened Prelude
  import opened ProjectGraph
  import opened Journal
  import opened Calls
  import opened Staleness
  import opened EngineModel
  import opened EngineRuns
  import opened GovernedEngine
  import opened Text
  import opened FreshnessChanges
  import opened AgentGoal
  import opened AgentInputs
  import opened AgentStory
  import Requirement
  import RequirementEval
  import RequirementTrace

  predicate OnlyUpdates(calls: seq<Call>) {
    forall i :: 0 <= i < |calls| ==> calls[i].UpdateObject?
  }

  /** The object id a successful step reports as created or affected. */
  function ReportedObject(command: string, output: Json): Option<string> {
    var id := Member(output, "id");
    if command != "relation.add" && id.Some? && id.value.Str? then Some(id.value.s) else None
  }

  /** A reported `id` names something that exists. */
  predicate Present(w: World, g: Graph, rec: StepRecord) {
    var id := Member(rec.output, "id");
    id.None? ||
    (id.value.Str? && w.parseId(id.value.s).Some? &&
     (if rec.command == "relation.add" then w.parseId(id.value.s).value in g.relations
      else w.parseId(id.value.s).value in g.objects))
  }

  predicate Exists(w: World, g: Graph, id: string) {
    w.parseId(id).Some? && w.parseId(id).value in g.objects
  }

  // ----- the goal predicate ---------------------------------------------------------------------

  function Predicate(spec: RunSpec): Option<string> {
    if spec.doneWhen.None? || Trim(spec.doneWhen.value) == "" then None else Some(Trim(spec.doneWhen.value))
  }

  // ----- what the transaction guarantees ---------------------------------------------------------

  /** `st` is somewhere inside the transaction that was opened in the idle state `before`. */
  ghost predicate Within(genesis: Graph, before: EngineState, st: EngineState) {
    && Inv(genesis, before) && before.open.None?
    && Inv(genesis, st) && st.open.Some?
    && st.records == before.records && st.cursor == before.cursor && st.dirty == before.dirty
  }

  /** At most one journal entry ahead, and one undo away from the graph of `before`. */
  ghost predicate OneStepAhead(before: EngineState, st: EngineState) {
    || st == before
    || (&& st.open.None? && before.cursor + 1 == st.cursor == |st.records|
        && before.cursor <= |before.records|
        && st.records[..before.cursor] == before.records[..before.cursor]
        && DoUndo(st).graph == before.graph)
  }

  /** The task object the run has created, if its id can be read. */
  function TaskId(w: World, task: Option<Json>): Option<Id> {
    if task.Some? && task.value.Str? then w.parseId(task.value.s) else None
  }

  /** The step between the last look at the goal and the commit. */
  ghost predicate TaskMarked(g: Graph, task: Option<Id>, after: Graph) {
    after == g || (task.Some? && task.value in g.objects && MarkedDone(g, task.value, after))
  }

  ghost predicate MarkedDone(g: Graph, task: Id, after: Graph)
    requires task in g.objects
  {
    exists actor, now :: after == AfterDone(g, task, actor, now)
  }

  /** The goal held when the loop ended, and marking the task done has changed what it reads. */
  ghost predicate GoalLost(env: Requirement.Env, exit: Graph, task: Option<Id>, goal: Option<string>, after: Graph) {
    after != exit && goal.Some? && task.Some? && task.value in exit.objects && Disturbed(env, exit, task.value, goal.value)
  }

  /** An `id` in the output is the text of an id of something that is there, of a relation if one was added. */
  ghost predicate Survives(w: World, g: Graph, rec: StepRecord) {
    rec.output.Obj? && "id" in rec.output.fields ==>
      && rec.output.fields["id"].Str? && w.parseId(rec.output.fields["id"].s).Some?
      && w.parseId(rec.output.fields["id"].s).value in (if rec.command == "relation.add" then g.relations.Keys else g.objects.Keys)
  }

  lemma PresentSurvives(w: World, g: Graph, h: Graph, records: seq<StepRecord>)
    requires AllPresent(w, g, records) && h.objects.Keys == g.objects.Keys && h.relations == g.relations
    ensures forall i :: 0 <= i < |records| ==> Survives(w, h, records[i])
  {
    forall i | 0 <= i < |records|
      ensures Survives(w, h, records[i])
    {
      assert Present(w, g, records[i]);
    }
  }

  /**
   What a successful report stands for: `exit` is the graph the loop ended in, `after` the
   committed one, in which the task object is marked done. What the steps reported is there.
   The goal holds of the first graph, and of the second exactly when it does not read what
   that mark writes.
   */
  ghost predicate Delivered(w: World, spec: RunSpec, report: Report, exit: Graph, task: Option<Id>, after: Graph) {
    && (forall id :: id in report.created <==> ReportedBy(report.steps, id))
    && (forall id :: id in report.created ==> Exists(w, after, id))
    && (forall i :: 0 <= i < |report.steps| ==> report.steps[i].ok && report.steps[i].index == i)
    && (forall i :: 0 <= i < |report.steps| ==> Survives(w, after, report.steps[i]))
    && GoalHolds(w.env, exit.objects, Predicate(spec))
    && after.objects.Keys == exit.objects.Keys && after.relations == exit.relations
    && TaskMarked(exit, task, after)
    && (RequirementTrace.Geometric(w.env) ==>
          (GoalHolds(w.env, after.objects, Predicate(spec)) <==> !GoalLost(w.env, exit, task, Predicate(spec), after)))
  }

  lemma GoalAtCommit(env: Requirement.Env, exit: Graph, task: Option<Id>, goal: Option<string>, after: Graph)
    requires Sound(exit) && GoalHolds(env, exit.objects, goal) && TaskMarked(exit, task, after)
    ensures RequirementTrace.Geometric(env) ==> (GoalHolds(env, after.objects, goal) <==> !GoalLost(env, exit, task, goal, after))
  {
    if RequirementTrace.Geometric(env) && goal.Some? && after != exit {
      var actor, now :| after == AfterDone(exit, task.value, actor, now);
      GoalAfterDone(env, exit, task.value, actor, now, goal.value);
    }
  }

  lemma WithinSound(genesis: Graph, before: EngineState, st: EngineState)
    requires Within(genesis, before, st)
    ensures Sound(st.graph) && Inv(genesis, st) && Inv(genesis, before)
  {
    GraphSound(genesis, st);
  }

  /** The commands logged since `st` are all this actor's. */
  predicate AllBy(st: EngineState, end: EngineState, actor: string) {
    && st.open.Some? && end.open.Some?
    && |st.open.value.commands| <= |end.open.value.commands|
    && end.open.value.commands[..|st.open.value.commands|] == st.open.value.commands
    && (forall i :: |st.open.value.commands| <= i < |end.open.value.commands| ==> end.open.value.commands[i].actor == actor)
  }

  lemma LogsOne(st: EngineState, a: Attempt)
    requires st.cursor <= |st.records| && st.open.Some?
    ensures AllBy(st, DoExecute(st, a), a.actor) && Opener(DoExecute(st, a)) == Opener(st)
  {
  }

  function Opener(st: EngineState): Option<string> {
    if st.open.Some? then Some(st.open.value.actor) else None
  }

  lemma IssuedByAgent(genesis: Graph, before: EngineState, w: World, actor: string, st: EngineState, tick: nat, command: string, input: Json)
    requires Lawful(w) && Within(genesis, before, st)
    ensures var end := Issued(w, actor, st, tick, command, input);
            Within(genesis, before, end) && AllBy(st, end, actor) && Opener(end) == Opener(st)
  {
    hide AllBy, Inv, DoExecute, Opener;
    GraphSound(genesis, st);
    WithinCursor(genesis, before, st);
    var a := Asked(w, actor, st, tick, command, input);
    assert Answers(a, st.graph, actor, command, input);
    ExecuteWithin(genesis, before, st, a);
    LogsOne(st, a);
  }

  /** Whatever the planner and the handlers do, what is on file in the open transaction is the agent's. */
  lemma {:induction false} PlayedByAgent(genesis: Graph, before: EngineState, w: World, actor: string, st: EngineState, tick: nat, records: seq<StepRecord>)
    requires Lawful(w) && Within(genesis, before, st)
    ensures var end := Play(w, actor, st, tick, records);
            Within(genesis, before, end) && AllBy(st, end, actor) && Opener(end) == Opener(st)
    decreases |records|
  {
    hide AllBy, Within, Lawful, Opener, Issued;
    WithinCursor(genesis, before, st);
    if records == [] {
      AllByNone(st, actor);
    } else {
      var n := |records| - 1;
      var mid := Play(w, actor, st, tick, records[..n]);
      PlayedByAgent(genesis, before, w, actor, st, tick, records[..n]);
      IssuedByAgent(genesis, before, w, actor, mid, tick + n, records[n].command, records[n].input);
      AllByJoin(st, mid, Play(w, actor, st, tick, records), actor);
    }
  }

  lemma WithinCursor(genesis: Graph, before: EngineState, st: EngineState)
    requires Within(genesis, before, st)
    ensures st.cursor <= |st.records| && st.open.Some?
  {
  }

  lemma AllByNone(st: EngineState, actor: string)
    requires st.open.Some?
    ensures AllBy(st, st, actor)
  {
  }

  lemma AllByJoin(a: EngineState, b: EngineState, c: EngineState, actor: string)
    requires AllBy(a, b, actor) && AllBy(b, c, actor)
    ensures AllBy(a, c, actor)
  {
    var n := |b.open.value.commands|;
    assert c.open.value.commands[..n][..|a.open.value.commands|] == c.open.value.commands[..|a.open.value.commands|];
    forall i | |a.open.value.commands| <= i < |c.open.value.commands|
      ensures c.open.value.commands[i].actor == actor
    {
      if i < n {
        assert c.open.value.commands[..n][i] == b.open.value.commands[i];
      }
    }
  }

  lemma BeginWithin(genesis: Graph, before: EngineState, ev: Event)
    requires Inv(genesis, before) && before.open.None? && ev.Begin?
    ensures Within(genesis, before, Step(before, ev))
  {
    StepKeepsInv(genesis, before, ev);
  }

  lemma ExecuteWithin(genesis: Graph, before: EngineState, st: EngineState, a: Attempt)
    requires Within(genesis, before, st) && Legal(st, Execute(a))
    ensures Within(genesis, before, DoExecute(st, a))
  {
    ExecuteKeepsInv(genesis, st, a);
    OpenStep(st, Execute(a));
  }

  /** Rolling back from anywhere inside lands exactly where the run began. */
  lemma RollbackWithin(genesis: Graph, before: EngineState, st: EngineState)
    requires Within(genesis, before, st)
    ensures DoRollback(st) == before
  {
    RollbackKeepsInv(genesis, st);
    assert Base(genesis, st) == Base(genesis, before) == before.graph;
  }

  lemma CommitWithin(genesis: Graph, before: EngineState, st: EngineState, now: int)
    requires Within(genesis, before, st)
    ensures OneStepAhead(before, DoCommit(st, now)) && Inv(genesis, DoCommit(st, now))
    ensures DoCommit(st, now).graph == st.graph && DoCommit(st, now).open.None?
  {
    var end := DoCommit(st, now);
    CommitKeepsInv(genesis, st, now);
    assert Base(genesis, st) == Base(genesis, before) == before.graph;
    if end.cursor == st.cursor {
      assert st.graph == Base(genesis, st);
      assert end == before;
    } else {
      UndoneGraph(genesis, end);
      assert end.records[..before.cursor] == before.records[..before.cursor];
    }
  }

  // ----- a command that only updates objects -----------------------------------------------------

  lemma {:induction false} UpdatesKeepKeys(g: Graph, actor: string, calls: seq<Call>)
    requires OnlyUpdates(calls) && LegalCalls(g, actor, calls)
    ensures var h := Forward(g, CallsOps(g, actor, calls)); h.objects.Keys == g.objects.Keys && h.relations == g.relations
    decreases |calls|
  {
    if calls != [] {
      var first := CallOps(g, actor, calls[0]);
      if calls[0].id in g.objects {
        TrailOne(g, first[0]);
        assert first == [first[0]];
      }
      UpdatesKeepKeys(Forward(g, first), actor, calls[1..]);
      ForwardConcat(g, first, CallsOps(Forward(g, first), actor, calls[1..]));
    }
  }

  lemma ExecuteKeepsKeys(genesis: Graph, st: EngineState, a: Attempt)
    requires Inv(genesis, st) && st.open.Some? && Legal(st, Execute(a)) && OnlyUpdates(a.calls)
    ensures DoExecute(st, a).graph.objects.Keys == st.graph.objects.Keys
    ensures DoExecute(st, a).graph.relations == st.graph.relations
  {
    if a.admission == Admitted {
      UpdatesKeepKeys(st.graph, a.actor, a.calls);
      FailureReverts(genesis, st, a);
      GraphSound(genesis, st);
      var ops := CallsOps(st.graph, a.actor, a.calls);
      CallsTrail(st.graph, a.actor, a.calls);
      TrailEndsSound(st.graph, ops);
      MarkOpsEffect(a.command, Forward(st.graph, ops), ops, a.actor, a.now);
    }
  }

  lemma ExecuteSetsProperty(genesis: Graph, st: EngineState, w: World, input: Json, a: Attempt)
    requires Inv(genesis, st) && Legal(st, Execute(a)) && a.command == SET_PROPERTY && SetsProperty(w, st.graph, input, a)
    ensures PropertySet(w, st.graph, input, DoExecute(st, a).graph)
  {
    if a.admission == Admitted {
      if a.answer.Ok? {
        var edited := PropertyEdit(w, st.graph, input).value;
        GraphSound(genesis, st);
        ExecuteLeaves(st, a);
        assert !WritesStatus(SET_PROPERTY);
        UpdateLeaves(st.graph, SET_PROPERTY, edited, a.actor, a.now);
      } else {
        FailureReverts(genesis, st, a);
      }
    }
  }

  // ----- the runtime ----------------------------------------------------------------------------------

  /** What a run has done so far. */
  datatype Progress = Progress(records: seq<StepRecord>, outputs: seq<Json>, created: set<string>, failure: Option<Failure>)

  /** Records are numbered, outputs are theirs, and `created` is every object that one of them reports. */
  ghost predicate Accounted(p: Progress) {
    && (forall i :: 0 <= i < |p.records| ==> p.records[i].index == i && (p.failure.None? ==> p.records[i].ok))
    && (p.failure.None? ==> p.outputs == Outputs(p.records))
    && (forall id :: id in p.created <==> ReportedBy(p.records, id))
  }

  lemma NothingDone()
    ensures Accounted(Progress([], [], {}, None))
  {
  }

  /** The record returns this as its `id`, and it is not that of a relation. */
  predicate Reports(rec: StepRecord, id: string) {
    rec.command != "relation.add" && rec.output.Obj? && "id" in rec.output.fields && rec.output.fields["id"] == Str(id)
  }

  ghost predicate ReportedBy(records: seq<StepRecord>, id: string) {
    exists i :: 0 <= i < |records| && Reports(records[i], id)
  }

  ghost predicate AllPresent(w: World, g: Graph, records: seq<StepRecord>) {
    forall i :: 0 <= i < |records| ==> Present(w, g, records[i])
  }

  lemma CreatedExist(w: World, g: Graph, h: Graph, p: Progress)
    requires Accounted(p) && AllPresent(w, g, p.records) && h.objects.Keys == g.objects.Keys
    ensures forall id :: id in p.created ==> Exists(w, h, id)
  {
    forall id | id in p.created
      ensures Exists(w, h, id)
    {
      assert ReportedBy(p.records, id);
      var i :| 0 <= i < |p.records| && Reports(p.records[i], id);
      assert Present(w, g, p.records[i]);
    }
  }

  function Noted(p: Progress, rec: StepRecord): Progress {
    var id := ReportedObject(rec.command, rec.output);
    Progress(p.records + [rec], p.outputs + [rec.output], p.created + (if id.Some? then {id.value} else {}), p.failure)
  }

  lemma AccountOne(p: Progress, rec: StepRecord)
    requires Accounted(p) && p.failure.None? && rec.index == |p.records|
    ensures rec.ok ==> Accounted(Noted(p, rec))
    ensures rec.output == Null ==> forall f :: Accounted(p.(records := p.records + [rec], failure := Some(f)))
  {
    var records := p.records + [rec];
    assert records[|p.records|] == rec;
    forall id
      ensures ReportedBy(records, id) <==> id in p.created || Reports(rec, id)
    {
      if ReportedBy(p.records, id) {
        var i :| 0 <= i < |p.records| && Reports(p.records[i], id);
        assert Reports(records[i], id);
      }
      if Reports(rec, id) {
        assert Reports(records[|p.records|], id);
      }
    }
  }

  /** What a planner's answer means for the run. */
  datatype Decision = Stop(why: Option<Failure>, unsupported: bool) | Go(steps: seq<PlannedStep>)

  function Decide(plan: Result<seq<PlannedStep>, PlanError>, iteration: nat, goal: Option<string>, remaining: nat): (d: Decision)
    ensures d.Go? ==> d.steps != [] && |d.steps| <= remaining
    ensures d.Stop? && d.unsupported ==> d.why.None? && iteration == 0
    ensures d.Stop? && d.why.None? && !d.unsupported ==> goal.None?
  {
    match plan
    case Err(Unsupported) => if iteration == 0 then Stop(None, true) else Stop(Some(PlannerGaveUp), false)
    case Err(PlanFailed(message)) => Stop(Some(PlanningFailed(message)), false)
    case Ok(steps) =>
      if steps == [] then Stop(if goal.None? then None else Some(NoFurtherSteps), false)
      else if |steps| > remaining then Stop(Some(OverBudget(|steps|, remaining)), false)
      else Go(steps)
  }

  // ----- how a run ends ---------------------------------------------------------------------------

  /** Every batch has been carried out to its end, and there were `iterations` of them. */
  predicate Complete(story: Story, records: seq<StepRecord>, iterations: nat) {
    |story.batches| == iterations && |records| == Due(story.batches, iterations)
  }

  /**
   Why the loop stopped in `st`: what the goal said there, what the planner answered to what
   it was shown, or which record is to blame.
   */
  ghost predicate Explained(w: World, budget: Budget, goal: Option<string>, story: Story, records: seq<StepRecord>,
                            iterations: nat, failure: Option<Failure>, unsupported: bool, st: EngineState) {
    && |records| <= budget.maxCommands
    && var answer := w.plan(st, Seen(w, budget, goal, iterations, records, st));
       var unmet := goal.Some? ==> !GoalHolds(w.env, st.graph.objects, goal);
       if unsupported then failure.None? && unmet && iterations == 0 && records == [] && answer == Err(Unsupported)
       else match failure
         case None =>
           && Complete(story, records, iterations)
           && if goal.Some? then GoalHolds(w.env, st.graph.objects, goal)
              else iterations == 1 || (iterations == 0 && records == [] && answer == Ok([]))
         case Some(IterationCap) => unmet && iterations == budget.maxIterations
         case Some(PlannerGaveUp) => unmet && iterations > 0 && answer == Err(Unsupported)
         case Some(PlanningFailed(message)) => unmet && answer == Err(PlanFailed(message))
         case Some(NoFurtherSteps) => goal.Some? && unmet && answer == Ok([])
         case Some(OverBudget(asked, remaining)) =>
           unmet && answer.Ok? && asked == |answer.value| && remaining == budget.maxCommands - |records| && remaining < asked
         case Some(StepFailed(index)) => index + 1 == |records| && !records[index].ok
         case Some(VerificationFailed(index)) => index < |records| && !Present(w, st.graph, records[index])
         case Some(BeginRefused) => false
  }

  // ----- the run's own commands --------------------------------------------------------------------

  function ActorOf(agent: string): string {
    "agent:" + agent
  }

  /** The first sixty characters of a longer goal, and a mark that there is more. */
  function Truncated(s: string, n: nat): string {
    if |s| <= n then s else s[..n] + ['\U{2026}']
  }

  function Title(agent: string, goal: string): string {
    "agent:" + agent + ": " + Truncated(goal, 60)
  }

  function TaskInput(agent: string, goal: string, runId: string): Json {
    Json.Obj(map[
      "type" := Str(AGENT_TASK),
      "name" := Str("agent-task-" + if |runId| <= 8 then runId else runId[..8]),
      "components" := Json.Obj(map[AGENT_TASK_INFO := Json.Obj(map[
        "goal" := Str(goal), "agent" := Str(agent), "status" := Str("running"), "run_id" := Str(runId)])])])
  }

  function DoneInput(id: string): Json {
    Json.Obj(map["id" := Str(id), "component" := Str(AGENT_TASK_INFO), "path" := Str("status"), "value" := Str("succeeded")])
  }

  /** The transaction a run works in, begun. */
  function Begun(st: EngineState, spec: RunSpec, agent: string, txnId: Id, now: int): (r: EngineState)
    requires st.cursor <= |st.records|
    ensures r.cursor <= |r.records|
  {
    Step(st, Begin(txnId, ActorOf(agent), Title(agent, spec.goal), now))
  }

  /** The command that puts the task on record. */
  function Created(w: World, agent: string, st: EngineState, tick: nat, goal: string, runId: string): Attempt {
    Asked(w, ActorOf(agent), st, tick, "object.create", TaskInput(agent, goal, runId))
  }

  /** The loop's first state: in it the task is on record, if the engine let that through. */
  function Entered(w: World, st: EngineState, tick: nat, spec: RunSpec, agent: string, runId: string, txnId: Id, now: int): EngineState
    requires st.cursor <= |st.records|
  {
    var begun := Begun(st, spec, agent, txnId, now);
    Step(begun, Execute(Created(w, agent, begun, tick, spec.goal, runId)))
  }

  /** What the answer to that command calls the task. */
  function TaskName(a: Attempt): Option<Json> {
    if Works(a) then Member(a.answer.value, "id") else None
  }

  /** The committed state: the task marked done, if there is one. */
  function Concluded(w: World, actor: string, st: EngineState, tick: nat, task: Option<Json>, now: int): EngineState
    requires st.cursor <= |st.records|
  {
    var marked := if task.Some? && task.value.Str? then Issued(w, actor, st, tick, SET_PROPERTY, DoneInput(task.value.s)) else st;
    Step(marked, Commit(now))
  }

  /** What is left of a run that has reached its goal. */
  ghost predicate Completed(w: World, spec: RunSpec, agent: string, report: Report, story: Story, exit: EngineState, task: Option<Json>,
                            now: int, end: EngineState) {
    && exit.cursor <= |exit.records|
    && end == Concluded(w, ActorOf(agent), exit, story.tick + |report.steps|, task, now)
    && Delivered(w, spec, report, exit.graph, TaskId(w, task), end.graph)
  }

  /** The report tells the run that ended in `exit`, and why it ended there. */
  ghost predicate Recounted(w: World, budget: Budget, spec: RunSpec, agent: string, report: Report, story: Story, exit: EngineState) {
    && |report.steps| <= budget.maxCommands && report.iterations <= budget.maxIterations
    && Told(w, budget, ActorOf(agent), Predicate(spec), story, report.steps, exit, story.tick + |report.steps|)
    && Explained(w, budget, Predicate(spec), story, report.steps, report.iterations, report.why, report.status == UnsupportedGoal, exit)
    && (report.status == Failed <==> report.why.Some?)
    && (report.status != Succeeded ==> report.created == {})
  }

  /** How a run inside its transaction stands between cycles, and when it is done. */
  ghost predicate Underway(w: World, budget: Budget, goal: Option<string>, p: Progress, iterations: nat, done: bool, unsupported: bool,
                           story: Story, st: EngineState) {
    && |p.records| <= budget.maxCommands && iterations <= budget.maxIterations
    && if done then Explained(w, budget, goal, story, p.records, iterations, p.failure, unsupported, st)
       else p.failure.None? && !unsupported && Complete(story, p.records, iterations) && (goal.None? ==> iterations == 0)
  }

  lemma Blamed(p: Progress, why: Option<Failure>)
    requires Accounted(p) && p.failure.None?
    ensures Accounted(p.(failure := why))
  {
  }

  lemma TurnChecked(w: World, steps: seq<PlannedStep>, earlier: seq<StepRecord>, p: Progress, g: Graph, missing: Option<nat>)
    requires Carried(steps, earlier, p) && p.failure.None?
    requires missing.None? ==> AllPresent(w, g, p.records[|earlier|..])
    requires missing.Some? ==> missing.value < |p.records| - |earlier| && !Present(w, g, p.records[|earlier|..][missing.value])
    ensures missing.None? ==> TurnEnded(w, steps, earlier, p, g)
    ensures missing.Some? ==> TurnEnded(w, steps, earlier, p.(failure := Some(VerificationFailed(|earlier| + missing.value))), g)
  {
    if missing.Some? {
      assert p.records[|earlier|..][missing.value] == p.records[|earlier| + missing.value];
    }
  }

  lemma TurnFailed(w: World, steps: seq<PlannedStep>, earlier: seq<StepRecord>, p: Progress, g: Graph)
    requires Carried(steps, earlier, p) && p.failure.Some?
    ensures TurnEnded(w, steps, earlier, p, g)
  {
  }

  /** A goal that is met, or a plan that is no plan, explains the end. */
  lemma StopExplained(w: World, budget: Budget, goal: Option<string>, story: Story, p: Progress, iterations: nat, st: EngineState)
    requires |p.records| <= budget.maxCommands && p.failure.None? && Complete(story, p.records, iterations)
    requires goal.None? ==> iterations == 0
    ensures goal.Some? && GoalHolds(w.env, st.graph.objects, goal) ==>
      Explained(w, budget, goal, story, p.records, iterations, None, false, st)
    ensures (goal.Some? ==> !GoalHolds(w.env, st.graph.objects, goal)) ==>
      && (iterations == budget.maxIterations ==> Explained(w, budget, goal, story, p.records, iterations, Some(IterationCap), false, st))
      && var seen := Seen(w, budget, goal, iterations, p.records, st);
         var d := Decide(w.plan(st, seen), iterations, goal, seen.commandsLeft);
         d.Stop? ==> Explained(w, budget, goal, story, p.records, iterations, d.why, d.unsupported, st)
  {
  }

  /** Without a goal one pass is the run. */
  lemma OnePass(w: World, budget: Budget, story: Story, records: seq<StepRecord>, st: EngineState)
    requires |records| <= budget.maxCommands && Complete(story, records, 1)
    ensures Explained(w, budget, None, story, records, 1, None, false, st)
  {
  }

  /** The turn's own end. */
  lemma TurnExplained(w: World, budget: Budget, goal: Option<string>, story: Story, steps: seq<PlannedStep>, earlier: seq<StepRecord>,
                      p: Progress, iterations: nat, st: EngineState)
    requires TurnEnded(w, steps, earlier, p, st.graph) && |p.records| <= budget.maxCommands && p.failure.Some?
    ensures Explained(w, budget, goal, story, p.records, iterations, p.failure, false, st)
  {
  }

  /** The goal is not met, and this is what the planner proposes instead; it fits. */
  ghost predicate Agreed(w: World, budget: Budget, goal: Option<string>, iterations: nat, records: seq<StepRecord>, st: EngineState,
                         steps: seq<PlannedStep>) {
    && |records| <= budget.maxCommands
    && (goal.Some? ==> !GoalHolds(w.env, st.graph.objects, goal))
    && var seen := Seen(w, budget, goal, iterations, records, st);
       w.plan(st, seen) == Ok(steps) && steps != [] && |steps| <= seen.commandsLeft
  }

  /** The story with this turn in it. */
  lemma TurnTold(w: World, budget: Budget, actor: string, goal: Option<string>, story: Story,
                 earlier: seq<StepRecord>, iterations: nat, st: EngineState, tick: nat, steps: seq<PlannedStep>,
                 p: Progress, now: EngineState, clock: nat)
    requires Told(w, budget, actor, goal, story, earlier, st, tick) && Complete(story, earlier, iterations) && |earlier| <= budget.maxCommands
    requires Agreed(w, budget, goal, iterations, earlier, st, steps)
    requires Played(w, actor, story.st, story.tick, p.records, now, clock) && TurnEnded(w, steps, earlier, p, now.graph)
    ensures var told := Extended(w, budget, goal, story, earlier, st, steps);
            && Told(w, budget, actor, goal, told, p.records, now, clock) && |p.records| <= budget.maxCommands
            && (p.failure.None? ==> Complete(told, p.records, iterations + 1))
  {
    ToldOneMore(w, budget, actor, goal, story, earlier, st, tick, steps, p.records, now, clock);
  }

  /** The report of a run that has stopped, goal met or not. */
  lemma StoppedReport(w: World, budget: Budget, spec: RunSpec, agent: string, story: Story, p: Progress, iterations: nat, unsupported: bool,
                      exit: EngineState, clock: nat)
    requires Underway(w, budget, Predicate(spec), p, iterations, true, unsupported, story, exit)
    requires Told(w, budget, ActorOf(agent), Predicate(spec), story, p.records, exit, clock)
    ensures var status := if unsupported then UnsupportedGoal else if p.failure.Some? then Failed else Succeeded;
            Recounted(w, budget, spec, agent, Report(status, p.records, if status == Succeeded then p.created else {}, iterations, p.failure), story, exit)
    ensures clock == story.tick + |p.records|
    ensures p.failure.None? && !unsupported ==> GoalHolds(w.env, exit.graph.objects, Predicate(spec))
  {
  }

  lemma MissingReport(w: World, budget: Budget, spec: RunSpec, agent: string, story: Story, p: Progress, iterations: nat, index: nat, exit: EngineState)
    requires Underway(w, budget, Predicate(spec), p, iterations, true, false, story, exit)
    requires Told(w, budget, ActorOf(agent), Predicate(spec), story, p.records, exit, story.tick + |p.records|)
    requires index < |p.records| && !Present(w, exit.graph, p.records[index])
    ensures Recounted(w, budget, spec, agent, Report(Failed, p.records, {}, iterations, Some(VerificationFailed(index))), story, exit)
  {
  }

  lemma AllDelivered(w: World, spec: RunSpec, p: Progress, iterations: nat, exit: Graph, task: Option<Id>, after: Graph)
    requires Accounted(p) && p.failure.None? && Sound(exit) && AllPresent(w, exit, p.records)
    requires GoalHolds(w.env, exit.objects, Predicate(spec)) && TaskMarked(exit, task, after)
    ensures Delivered(w, spec, Report(Succeeded, p.records, p.created, iterations, None), exit, task, after)
  {
    MarkedKeeps(exit, task, after);
    CreatedExist(w, exit, after, p);
    PresentSurvives(w, exit, after, p.records);
    GoalAtCommit(w.env, exit, task, Predicate(spec), after);
  }

  predicate Replied(a: Attempt, r: Result<Json, EngineError>) {
    && (r.Ok? <==> Works(a))
    && (r.Ok? ==> r.value == a.answer.value)
  }

  function Recorded(index: nat, command: string, input: Json, r: Result<Json, EngineError>): StepRecord {
    StepRecord(index, command, input, r.Ok?, if r.Ok? then r.value else Null)
  }

  /** The batch is carried out, to its end or to a step that failed. */
  ghost predicate Carried(steps: seq<PlannedStep>, earlier: seq<StepRecord>, p: Progress) {
    && |earlier| <= |p.records| <= |earlier| + |steps| && p.records[..|earlier|] == earlier
    && ActedOn(steps, |earlier|, p.records)
    && (if p.failure.None? then |p.records| == |earlier| + |steps|
        else |earlier| < |p.records| && p.failure == Some(StepFailed(|p.records| - 1)) && !p.records[|p.records| - 1].ok)
  }

  /** The batch is carried out, and as far as it got, all of it reports what is there or one record is to blame. */
  ghost predicate TurnEnded(w: World, steps: seq<PlannedStep>, earlier: seq<StepRecord>, p: Progress, g: Graph) {
    && |earlier| <= |p.records| <= |earlier| + |steps| && p.records[..|earlier|] == earlier
    && ActedOn(steps, |earlier|, p.records)
    && match p.failure
       case None => |p.records| == |earlier| + |steps| && AllPresent(w, g, p.records[|earlier|..])
       case Some(StepFailed(index)) => index + 1 == |p.records| && !p.records[index].ok
       case Some(VerificationFailed(index)) => index < |p.records| && !Present(w, g, p.records[index])
       case _ => false
  }

  /** One more record, of this step. */
  ghost predicate StepTaken(step: PlannedStep, start: Progress, p: Progress) {
    && |p.records| == |start.records| + 1 && p.records[..|start.records|] == start.records
    && Acted(step, start.records, p.records[|start.records|])
    && p.failure == if p.records[|start.records|].ok then None else Some(StepFailed(|start.records|))
  }

  lemma TakenOne(steps: seq<PlannedStep>, earlier: seq<StepRecord>, start: Progress, p: Progress)
    requires |earlier| <= |start.records| < |earlier| + |steps| && start.records[..|earlier|] == earlier
    requires ActedOn(steps, |earlier|, start.records) && StepTaken(steps[|start.records| - |earlier|], start, p)
    ensures p.records[..|earlier|] == earlier && ActedOn(steps, |earlier|, p.records)
  {
    var rec := p.records[|start.records|];
    assert p.records == start.records + [rec];
    ActedOnOne(steps, |earlier|, start.records, rec);
  }

  class AgentRuntime {
    const w: World
    const budget: Budget
    /** Counts the commands issued, to tell repeated calls apart. */
    var tick: nat

    constructor (w: World, budget: Budget)
      ensures this.w == w && this.budget == budget
    {
      this.w, this.budget, tick := w, budget, 0;
    }

    method Command(e: Engine, actor: string, command: string, input: Json, ghost genesis: Graph, ghost before: EngineState)
      returns (r: Result<Json, EngineError>)
      requires Lawful(w) && e.Valid() && Within(genesis, before, e.State()) && this !in e.Repr()
      modifies e.Repr(), this`tick
      ensures e.Valid() && fresh(e.Repr() - old(e.Repr()))
      ensures Within(genesis, before, e.State())
      ensures e.State() == Issued(w, actor, old(e.State()), old(tick), command, input) && tick == old(tick) + 1
      ensures Replied(Asked(w, actor, old(e.State()), old(tick), command, input), r)
      ensures command == SET_PROPERTY ==> PropertySet(w, old(e.State()).graph, input, e.State().graph)
    {
      var a := w.handle(e.project.State(), actor, command, input, tick);
      tick := tick + 1;
      GraphSound(genesis, e.State());
      assert Answers(a, e.project.State(), actor, command, input);
      ExecuteWithin(genesis, before, e.State(), a);
      if command == SET_PROPERTY {
        ExecuteSetsProperty(genesis, e.State(), w, input, a);
      }
      r := e.Execute(a);
    }

    /** One planned step, its references to earlier outputs filled in. */
    method Take(e: Engine, actor: string, step: PlannedStep, start: Progress, ghost story: Story, ghost genesis: Graph, ghost before: EngineState)
      returns (p: Progress)
      requires Lawful(w) && e.Valid() && Within(genesis, before, e.State()) && this !in e.Repr()
      requires Accounted(start) && start.failure.None?
      requires Played(w, actor, story.st, story.tick, start.records, e.State(), tick)
      modifies e.Repr(), this`tick
      ensures e.Valid() && fresh(e.Repr() - old(e.Repr())) && Within(genesis, before, e.State())
      ensures Accounted(p) && StepTaken(step, start, p)
      ensures Played(w, actor, story.st, story.tick, p.records, e.State(), tick)
    {
      var i := |start.records|;
      var input := ResolveRefs(step.input, start.outputs);
      ResolveFills(step.input, start.outputs);
      ghost var st, clock := e.State(), tick;
      var r := Command(e, actor, step.command, input, genesis, before);
      var rec := Recorded(i, step.command, input, r);
      PlayedOne(w, actor, story.st, story.tick, start.records, st, clock, rec);
      AccountOne(start, rec);
      if r.Err? {
        return start.(records := start.records + [rec], failure := Some(StepFailed(i)));
      }
      p := Noted(start, rec);
    }

    /** Execute one batch, stopping at the first step that fails. */
    method Act(e: Engine, actor: string, steps: seq<PlannedStep>, start: Progress, ghost story: Story, ghost genesis: Graph, ghost before: EngineState)
      returns (p: Progress)
      requires Lawful(w) && e.Valid() && Within(genesis, before, e.State()) && this !in e.Repr()
      requires Accounted(start) && start.failure.None?
      requires Played(w, actor, story.st, story.tick, start.records, e.State(), tick)
      modifies e.Repr(), this`tick
      ensures e.Valid() && fresh(e.Repr() - old(e.Repr())) && Within(genesis, before, e.State())
      ensures Accounted(p) && Carried(steps, start.records, p)
      ensures Played(w, actor, story.st, story.tick, p.records, e.State(), tick)
    {
      hide Within, Played, Lawful, Accounted, ActedOn;
      p := start;
      ActedOnNothing(steps, start.records);
      for k := 0 to |steps|
        invariant e.Valid() && fresh(e.Repr() - old(e.Repr())) && Within(genesis, before, e.State())
        invariant Accounted(p) && p.failure.None? && |p.records| == |start.records| + k
        invariant p.records[..|start.records|] == start.records && ActedOn(steps, |start.records|, p.records)
        invariant Played(w, actor, story.st, story.tick, p.records, e.State(), tick)
      {
        ghost var last := p;
        p := Take(e, actor, steps[k], p, story, genesis, before);
        TakenOne(steps, start.records, last, p);
        if p.failure.Some? {
          return;
        }
      }
    }

    /** Act on one batch, then check what its steps reported. */
    method Turn(e: Engine, actor: string, steps: seq<PlannedStep>, start: Progress, ghost story: Story, ghost genesis: Graph, ghost before: EngineState)
      returns (p: Progress)
      requires Lawful(w) && e.Valid() && Within(genesis, before, e.State()) && this !in e.Repr()
      requires Accounted(start) && start.failure.None?
      requires Played(w, actor, story.st, story.tick, start.records, e.State(), tick)
      modifies e.Repr(), this`tick
      ensures e.Valid() && fresh(e.Repr() - old(e.Repr())) && Within(genesis, before, e.State())
      ensures Accounted(p) && TurnEnded(w, steps, start.records, p, e.State().graph)
      ensures Played(w, actor, story.st, story.tick, p.records, e.State(), tick)
    {
      hide Within, Played, Lawful, Accounted, TurnEnded, Present, AllPresent, ActedOn;
      p := Act(e, actor, steps, start, story, genesis, before);
      if p.failure.None? {
        var missing := Verify(e.project.State(), p.records[|start.records|..]);
        TurnChecked(w, steps, start.records, p, e.State().graph, missing);
        if missing.Some? {
          Blamed(p, Some(VerificationFailed(|start.records| + missing.value)));
          p := p.(failure := Some(VerificationFailed(|start.records| + missing.value)));
        }
      } else {
        TurnFailed(w, steps, start.records, p, e.State().graph);
      }
    }

    /** Find the first record whose reported id names nothing. */
    method Verify(g: Graph, records: seq<StepRecord>) returns (r: Option<nat>)
      ensures r.None? <==> AllPresent(w, g, records)
      ensures r.Some? ==> r.value < |records| && !Present(w, g, records[r.value]) && AllPresent(w, g, records[..r.value])
    {
      for i := 0 to |records|
        invariant AllPresent(w, g, records[..i])
      {
        if !Present(w, g, records[i]) {
          return Some(i);
        }
        assert records[..i + 1] == records[..i] + [records[i]];
      }
      assert records[..|records|] == records;
      return None;
    }

    /** Is there a goal, and does it hold? If it does not, the text of the verdict is for the planner. */
    method Inspect(objects: map<Id, Object>, goal: Option<string>) returns (met: bool, verdict: Option<string>)
      ensures met <==> goal.Some? && GoalHolds(w.env, objects, goal)
      ensures verdict == if goal.None? || met then None else Some(EvalGoal(w.env, objects, goal.value).text)
    {
      if goal.None? {
        return false, None;
      }
      var v := RequirementEval.Evaluate(w.env, objects, Probe(goal.value));
      met := v.status == Requirement.Pass;
      verdict := if met then None else Some(v.text);
    }

    /** Act on the plan and verify; the story gets this turn. */
    method Proceed(e: Engine, actor: string, ghost goal: Option<string>, steps: seq<PlannedStep>, start: Progress, ghost iterations: nat,
                   ghost story: Story, ghost genesis: Graph, ghost before: EngineState)
      returns (p: Progress, ghost told: Story)
      requires Lawful(w) && e.Valid() && Within(genesis, before, e.State()) && this !in e.Repr()
      requires Accounted(start) && start.failure.None? && |start.records| <= budget.maxCommands
      requires Told(w, budget, actor, goal, story, start.records, e.State(), tick) && Complete(story, start.records, iterations)
      requires Agreed(w, budget, goal, iterations, start.records, e.State(), steps)
      modifies e.Repr(), this`tick
      ensures e.Valid() && fresh(e.Repr() - old(e.Repr())) && Within(genesis, before, e.State())
      ensures Accounted(p) && |p.records| <= budget.maxCommands
      ensures told.st == story.st && told.tick == story.tick
      ensures Told(w, budget, actor, goal, told, p.records, e.State(), tick)
      ensures p.failure.None? ==> Complete(told, p.records, iterations + 1)
      ensures p.failure.Some? ==> Explained(w, budget, goal, told, p.records, iterations, p.failure, false, e.State())
    {
      hide Within, Lawful, Accounted, Told, Explained, Complete, GoalHolds, TurnEnded, Agreed, Played;
      ghost var st, clock := e.State(), tick;
      ToldPlayed(w, budget, actor, goal, story, start.records, st, clock);
      p := Turn(e, actor, steps, start, story, genesis, before);
      told := Extended(w, budget, goal, story, start.records, st, steps);
      TurnTold(w, budget, actor, goal, story, start.records, iterations, st, clock, steps, p, e.State(), tick);
      if p.failure.Some? {
        TurnExplained(w, budget, goal, told, steps, start.records, p, iterations, e.State());
      }
    }

    /** One cycle: inspect the goal, check the cap, plan, act, verify. `done` ends the loop. */
    method Cycle(e: Engine, actor: string, goal: Option<string>, start: Progress, iterations: nat, ghost story: Story,
                 ghost genesis: Graph, ghost before: EngineState)
      returns (p: Progress, done: bool, unsupported: bool, ghost told: Story)
      requires Lawful(w) && e.Valid() && Within(genesis, before, e.State()) && this !in e.Repr()
      requires Accounted(start) && start.failure.None? && |start.records| <= budget.maxCommands && iterations <= budget.maxIterations
      requires Told(w, budget, actor, goal, story, start.records, e.State(), tick) && Complete(story, start.records, iterations)
      requires goal.None? ==> iterations == 0
      modifies e.Repr(), this`tick
      ensures e.Valid() && fresh(e.Repr() - old(e.Repr())) && Within(genesis, before, e.State())
      ensures Accounted(p) && |p.records| <= budget.maxCommands
      ensures told.st == story.st && told.tick == story.tick
      ensures Told(w, budget, actor, goal, told, p.records, e.State(), tick)
      ensures !done ==> iterations < budget.maxIterations && p.failure.None? && !unsupported && Complete(told, p.records, iterations + 1)
      ensures done ==> Explained(w, budget, goal, told, p.records, iterations, p.failure, unsupported, e.State())
    {
      hide Within, Lawful, Accounted, Told, Explained, Complete, GoalHolds;
      p, done, unsupported, told := start, true, false, story;
      var met, verdict := Inspect(e.project.objects, goal);
      StopExplained(w, budget, goal, story, start, iterations, e.State());
      if met {
        return;
      }
      if iterations >= budget.maxIterations {
        Blamed(p, Some(IterationCap));
        p := p.(failure := Some(IterationCap));
        return;
      }
      var remaining := budget.maxCommands - |p.records|;
      var plan := w.plan(e.State(), Observation(iterations, p.records, verdict, goal, remaining));
      var decision := Decide(plan, iterations, goal, remaining);
      if decision.Stop? {
        Blamed(p, decision.why);
        p, unsupported := p.(failure := decision.why), decision.unsupported;
        return;
      }
      p, told := Proceed(e, actor, goal, decision.steps, p, iterations, story, genesis, before);
      done := p.failure.Some?;
    }

    /** The loop: what is left open is either rolled back or committed by the caller. */
    method Loop(e: Engine, actor: string, goal: Option<string>, ghost genesis: Graph, ghost before: EngineState)
      returns (p: Progress, iterations: nat, unsupported: bool, ghost story: Story)
      requires Lawful(w) && e.Valid() && Within(genesis, before, e.State()) && this !in e.Repr()
      modifies e.Repr(), this`tick
      ensures e.Valid() && fresh(e.Repr() - old(e.Repr())) && Within(genesis, before, e.State())
      ensures Accounted(p) && Underway(w, budget, goal, p, iterations, true, unsupported, story, e.State())
      ensures Told(w, budget, actor, goal, story, p.records, e.State(), tick)
      ensures story.st == old(e.State()) && story.tick == old(tick)
    {
      hide Within, Lawful, Accounted, Told, Explained;
      NothingDone();
      p := Progress([], [], {}, None);
      iterations, unsupported, story := 0, false, Story(e.State(), tick, []);
      ToldNothing(w, budget, actor, goal, e.State(), tick);
      var done := false;
      while !done
        invariant e.Valid() && fresh(e.Repr() - old(e.Repr())) && Within(genesis, before, e.State())
        invariant Accounted(p) && Underway(w, budget, goal, p, iterations, done, unsupported, story, e.State())
        invariant Told(w, budget, actor, goal, story, p.records, e.State(), tick)
        invariant story.st == old(e.State()) && story.tick == old(tick)
        decreases budget.maxIterations - iterations, !done
      {
        p, iterations, done, unsupported, story := Round(e, actor, goal, p, iterations, story, genesis, before);
      }
    }

    /** A cycle and its count; without a goal there is no second one. */
    method Round(e: Engine, actor: string, goal: Option<string>, start: Progress, count: nat, ghost story: Story,
                 ghost genesis: Graph, ghost before: EngineState)
      returns (p: Progress, iterations: nat, done: bool, unsupported: bool, ghost told: Story)
      requires Lawful(w) && e.Valid() && Within(genesis, before, e.State()) && this !in e.Repr()
      requires Accounted(start) && Underway(w, budget, goal, start, count, false, false, story, e.State())
      requires Told(w, budget, actor, goal, story, start.records, e.State(), tick)
      modifies e.Repr(), this`tick
      ensures e.Valid() && fresh(e.Repr() - old(e.Repr())) && Within(genesis, before, e.State())
      ensures Accounted(p) && Underway(w, budget, goal, p, iterations, done, unsupported, told, e.State())
      ensures Told(w, budget, actor, goal, told, p.records, e.State(), tick)
      ensures told.st == story.st && told.tick == story.tick
      ensures count <= iterations <= budget.maxIterations && (!done ==> iterations == count + 1)
    {
      hide Within, Lawful, Accounted, Told, Explained;
      iterations := count;
      p, done, unsupported, told := Cycle(e, actor, goal, start, iterations, story, genesis, before);
      if !done {
        iterations := iterations + 1;
        done := goal.None?;
        if done {
          OnePass(w, budget, told, p.records, e.State());
        }
      }
    }

    /**
     One run. Whatever the planner proposes and whatever the handlers do, an unsuccessful run
     leaves the engine exactly as it was, and a successful one is at most one undoable
     transaction in whose graph every reported object exists. The report is the run: each
     step is one the planner proposed, with the outputs it refers to filled in, and where the
     engine ends up is where exactly those commands lead, in that order.
     */
    method RunSpec(e: Engine, spec: RunSpec, agent: string, runId: string, txnId: Id, now: int, ghost genesis: Graph)
      returns (report: Report, ghost exit: EngineState, ghost story: Story, ghost task: Option<Json>)
      requires Lawful(w) && e.Valid() && Inv(genesis, e.State()) && this !in e.Repr()
      modifies e.Repr(), this`tick
      ensures e.Valid() && Inv(genesis, e.State())
      ensures report.status != Succeeded ==> e.State() == old(e.State())
      ensures report.status == Succeeded ==> OneStepAhead(old(e.State()), e.State())
      ensures old(e.State()).open.Some? ==> report == Report(Failed, [], {}, 0, Some(BeginRefused))
      ensures old(e.State()).open.None? ==>
        && story.st == Entered(w, old(e.State()), old(tick), spec, agent, runId, txnId, now) && story.tick == old(tick) + 1
        && Recounted(w, budget, spec, agent, report, story, exit)
      ensures report.status == Succeeded ==>
        && task == TaskName(Created(w, agent, Begun(old(e.State()), spec, agent, txnId, now), old(tick), spec.goal, runId))
        && Completed(w, spec, agent, report, story, exit, task, now, e.State())
    {
      hide Lawful, Told, Explained, OneStepAhead, Inv, Within, Recounted, Completed;
      ghost var before := e.State();
      exit, story, task := before, Story(before, tick, []), None;
      var begun := e.BeginTransaction(txnId, ActorOf(agent), Title(agent, spec.goal), now);
      if begun.Err? {
        return Report(Failed, [], {}, 0, Some(BeginRefused)), exit, story, task;
      }
      BeginWithin(genesis, before, Begin(txnId, ActorOf(agent), Title(agent, spec.goal), now));
      report, exit, story, task := Pursue(e, spec, agent, runId, now, genesis, before);
    }

    /** Inside the transaction: record the task, run the loop, conclude. */
    method Pursue(e: Engine, spec: RunSpec, agent: string, runId: string, now: int, ghost genesis: Graph, ghost before: EngineState)
      returns (report: Report, ghost exit: EngineState, ghost story: Story, ghost task: Option<Json>)
      requires Lawful(w) && e.Valid() && Within(genesis, before, e.State()) && this !in e.Repr()
      modifies e.Repr(), this`tick
      ensures e.Valid() && Inv(genesis, e.State())
      ensures report.status != Succeeded ==> e.State() == before
      ensures report.status == Succeeded ==> OneStepAhead(before, e.State())
      ensures story.st == Step(old(e.State()), Execute(Created(w, agent, old(e.State()), old(tick), spec.goal, runId)))
      ensures story.tick == old(tick) + 1
      ensures Recounted(w, budget, spec, agent, report, story, exit)
      ensures report.status == Succeeded ==>
        && task == TaskName(Created(w, agent, old(e.State()), old(tick), spec.goal, runId))
        && Completed(w, spec, agent, report, story, exit, task, now, e.State())
    {
      hide Lawful, Within, Told, Explained, Delivered, OneStepAhead, Accounted, Recounted, Completed, Underway;
      var created := Command(e, ActorOf(agent), "object.create", TaskInput(agent, spec.goal, runId), genesis, before);
      var name := if created.Ok? then Member(created.value, "id") else None;
      task := name;
      var p, iterations, unsupported, told := Loop(e, ActorOf(agent), Predicate(spec), genesis, before);
      story := told;
      report, exit := Conclude(e, spec, agent, name, p, iterations, unsupported, now, story, genesis, before);
    }

    /** After the loop: roll back, or check every reported id once more and commit. */
    method Conclude(e: Engine, spec: RunSpec, agent: string, name: Option<Json>, p: Progress, iterations: nat, unsupported: bool,
                    now: int, ghost story: Story, ghost genesis: Graph, ghost before: EngineState)
      returns (report: Report, ghost exit: EngineState)
      requires Lawful(w) && e.Valid() && Within(genesis, before, e.State()) && this !in e.Repr()
      requires Accounted(p) && Underway(w, budget, Predicate(spec), p, iterations, true, unsupported, story, e.State())
      requires Told(w, budget, ActorOf(agent), Predicate(spec), story, p.records, e.State(), tick)
      modifies e.Repr(), this`tick
      ensures e.Valid() && Inv(genesis, e.State())
      ensures report.status != Succeeded ==> e.State() == before
      ensures report.status == Succeeded ==> OneStepAhead(before, e.State())
      ensures exit == old(e.State()) && Recounted(w, budget, spec, agent, report, story, exit)
      ensures report.status == Succeeded ==> Completed(w, spec, agent, report, story, exit, name, now, e.State())
    {
      hide Lawful, Within, Told, Underway, OneStepAhead, TaskMarked, Delivered, Recounted, Accounted, AllPresent, Inv, Sound, GoalHolds, Concluded;
      exit := e.State();
      WithinSound(genesis, before, e.State());
      StoppedReport(w, budget, spec, agent, story, p, iterations, unsupported, exit, tick);
      if unsupported || p.failure.Some? {
        report := Report(if unsupported then UnsupportedGoal else Failed, p.records, {}, iterations, p.failure);
        GiveUp(e, genesis, before);
        return;
      }
      var missing := Verify(e.project.State(), p.records);
      if missing.Some? {
        MissingReport(w, budget, spec, agent, story, p, iterations, missing.value, exit);
        report := Report(Failed, p.records, {}, iterations, Some(VerificationFailed(missing.value)));
        GiveUp(e, genesis, before);
        return;
      }
      Finish(e, ActorOf(agent), name, now, genesis, before);
      report := Report(Succeeded, p.records, p.created, iterations, None);
      AllDelivered(w, spec, p, iterations, exit.graph, TaskId(w, name), e.State().graph);
    }

    /** Mark the task object done and commit. */
    method Finish(e: Engine, actor: string, name: Option<Json>, now: int, ghost genesis: Graph, ghost before: EngineState)
      requires Lawful(w) && e.Valid() && Within(genesis, before, e.State()) && this !in e.Repr()
      modifies e.Repr(), this`tick
      ensures e.Valid() && Inv(genesis, e.State()) && OneStepAhead(before, e.State())
      ensures e.State() == Concluded(w, actor, old(e.State()), old(tick), name, now)
      ensures TaskMarked(old(e.State()).graph, TaskId(w, name), e.State().graph)
    {
      hide Lawful, OneStepAhead, TaskMarked, Within, PropertySet, Inv, Sound;
      ghost var exit := e.State().graph;
      WithinSound(genesis, before, e.State());
      if name.Some? && name.value.Str? {
        var _ := Command(e, actor, SET_PROPERTY, DoneInput(name.value.s), genesis, before);
        DoneIsMarked(w, exit, name.value.s, e.State().graph);
      } else {
        Unmarked(exit, TaskId(w, name));
      }
      CommitWithin(genesis, before, e.State(), now);
      var _ := e.CommitTransaction(now);
    }

    method GiveUp(e: Engine, ghost genesis: Graph, ghost before: EngineState)
      requires e.Valid() && Within(genesis, before, e.State())
      modifies e, e.project
      ensures e.Valid() && e.State() == before && e.Repr() <= old(e.Repr())
    {
      RollbackWithin(genesis, before, e.State());
      var _ := e.RollbackTransaction();
    }
  }

  lemma DoneInputReads(id: string)
    ensures var input := DoneInput(id);
            && Member(input, "id") == Some(Str(id)) && Member(input, "component") == Some(Str(AGENT_TASK_INFO))
            && Member(input, "path") == Some(Str("status")) && Member(input, "value") == Some(Str("succeeded"))
  {
  }

  lemma DoneEdit(w: World, g: Graph, id: string)
    ensures var i := w.parseId(id);
            PropertyEdit(w, g, DoneInput(id)) == if i.Some? && i.value in g.objects then Some(TaskDone(g.objects[i.value])) else None
  {
    DoneInputReads(id);
    var i := w.parseId(id);
    if i.Some? && i.value in g.objects {
      PutIsSet(g.objects[i.value], Str("succeeded"));
    }
  }

  /** Setting that property is marking the task done. */
  lemma DoneIsMarked(w: World, g: Graph, id: string, after: Graph)
    requires Sound(g) && PropertySet(w, g, DoneInput(id), after)
    ensures TaskMarked(g, w.parseId(id), after)
  {
    DoneEdit(w, g, id);
    if after != g {
      var i := w.parseId(id).value;
      StoredIsDone(g, i, after);
    }
  }

  lemma StoredIsDone(g: Graph, task: Id, after: Graph)
    requires task in g.objects && StoredBySomeone(g, TaskDone(g.objects[task]), after)
    ensures MarkedDone(g, task, after)
  {
    var actor, now :| after == StoredAndMarked(g, TaskDone(g.objects[task]).Touch(actor, now), actor, now);
    assert after == AfterDone(g, task, actor, now);
  }

  lemma Unmarked(g: Graph, task: Option<Id>)
    ensures TaskMarked(g, task, g)
  {
  }

  lemma MarkedKeeps(g: Graph, task: Option<Id>, after: Graph)
    requires Sound(g) && TaskMarked(g, task, after)
    ensures after.objects.Keys == g.objects.Keys && after.relations == g.relations
  {
  }
}
