/** The agent's world, and what it means that a run's records are what happened. */
module AgentStory {
  import opened Prelude
  import opened ProjectGraph
  import opened Calls
  import opened EngineModel
  import opened PropertyPath
  import opened ObjectCommands
  import opened FreshnessChanges
  import opened AgentGoal
  import opened AgentInputs
  import Requirement

  const AGENT_TASK := "core:agent-task"
  const SET_PROPERTY := "object.set_property"

  datatype Budget = Budget(maxCommands: nat, maxIterations: nat)

  datatype RunSpec = RunSpec(goal: string, doneWhen: Option<string>)

  datatype PlannedStep = PlannedStep(command: string, input: Json)

  datatype PlanError = Unsupported | PlanFailed(message: string)

  datatype StepRecord = StepRecord(index: nat, command: string, input: Json, ok: bool, output: Json)

  datatype Observation = Observation(
    iteration: nat, steps: seq<StepRecord>, verdict: Option<string>, goalExpr: Option<string>, commandsLeft: nat)

  datatype RunStatus = Succeeded | Failed | UnsupportedGoal

  datatype Failure =
    | BeginRefused
    | IterationCap
    | PlannerGaveUp
    | PlanningFailed(message: string)
    | NoFurtherSteps
    | OverBudget(asked: nat, remaining: nat)
    | StepFailed(index: nat)
    | VerificationFailed(index: nat)

  datatype Report = Report(status: RunStatus, steps: seq<StepRecord>, created: set<string>, iterations: nat, why: Option<Failure>)

  /**
   Everything the loop meets but does not decide: what a command's handler does to the graph
   it finds when an actor asks for it (`tick` tells repeated calls apart), what the planner
   proposes, how an id is read.
   */
  datatype World = World(
    handle: (Graph, string, string, Json, nat) -> Attempt,
    plan: (EngineState, Observation) -> Result<seq<PlannedStep>, PlanError>,
    parseId: string -> Option<Id>,
    env: Requirement.Env)

  /**
   Handlers answer for the command, actor and input they were asked for and mint fresh ids, and the handler of
   `object.set_property` is the one update that it is.
   */
  ghost predicate Lawful(w: World) {
    && (forall g, actor, command, input, tick :: Sound(g) ==>
          Answers(w.handle(g, actor, command, input, tick), g, actor, command, input))
    && (forall g, actor, input, tick :: Sound(g) ==>
          SetsProperty(w, g, input, w.handle(g, actor, SET_PROPERTY, input, tick)))
  }

  ghost predicate Answers(a: Attempt, g: Graph, actor: string, command: string, input: Json) {
    a.command == command && a.actor == actor && a.inputs == input && LegalCalls(g, actor, a.calls)
  }

  /** The object that `object.set_property` stores, if it gets that far. */
  function PropertyEdit(w: World, g: Graph, input: Json): Option<Object> {
    var target := ResolveObject(g.objects, Names(w.parseId, w.env.pick), Query(TextOf(Member(input, "id")), TextOf(Member(input, "name"))));
    var component, path, value := TextOf(Member(input, "component")), TextOf(Member(input, "path")), Member(input, "value");
    if target.Err? || target.value !in g.objects || component.None? || path.None? || value.None? then None
    else WithProperty(g.objects[target.value], component.value, path.value, value.value)
  }

  ghost predicate SetsProperty(w: World, g: Graph, input: Json, a: Attempt) {
    a.admission == Admitted ==>
      var edited := PropertyEdit(w, g, input);
      if edited.Some? then a.answer.Ok? && a.calls == [Call.UpdateObject(edited.value.id, edited.value, a.now)]
      else a.answer.Err? && a.calls == []
  }

  /** The graph after `object.set_property`, marks included: refused, or the one edit. */
  ghost predicate PropertySet(w: World, g: Graph, input: Json, after: Graph) {
    after == g || (PropertyEdit(w, g, input).Some? && StoredBySomeone(g, PropertyEdit(w, g, input).value, after))
  }

  ghost predicate StoredBySomeone(g: Graph, o: Object, after: Graph) {
    exists actor, now :: after == StoredAndMarked(g, o.Touch(actor, now), actor, now)
  }

  // ----- commands carried out ------------------------------------------------------------------

  function Asked(w: World, actor: string, st: EngineState, tick: nat, command: string, input: Json): Attempt {
    w.handle(st.graph, actor, command, input, tick)
  }

  /** The engine after one command of the agent. */
  function Issued(w: World, actor: string, st: EngineState, tick: nat, command: string, input: Json): (r: EngineState)
    requires st.cursor <= |st.records|
    ensures r.cursor <= |r.records|
  {
    Step(st, Execute(Asked(w, actor, st, tick, command, input)))
  }

  /** The engine after these commands on these inputs, in this order. */
  ghost function Play(w: World, actor: string, st: EngineState, tick: nat, records: seq<StepRecord>): (r: EngineState)
    requires st.cursor <= |st.records|
    ensures r.cursor <= |r.records|
    decreases |records|
  {
    if records == [] then st else
      var n := |records| - 1;
      Issued(w, actor, Play(w, actor, st, tick, records[..n]), tick + n, records[n].command, records[n].input)
  }

  predicate Works(a: Attempt) {
    a.admission == Admitted && a.answer.Ok?
  }

  /** The record says how the command came out. */
  predicate Answered(a: Attempt, rec: StepRecord) {
    && (rec.ok <==> Works(a))
    && rec.output == if Works(a) then a.answer.value else Null
  }

  /** Every record tells what the engine answered, in the state the records before it had led to. */
  ghost predicate Truthful(w: World, actor: string, st: EngineState, tick: nat, records: seq<StepRecord>)
    requires st.cursor <= |st.records|
  {
    forall n :: 0 <= n < |records| ==> TruthfulAt(w, actor, st, tick, records, n)
  }

  ghost predicate TruthfulAt(w: World, actor: string, st: EngineState, tick: nat, records: seq<StepRecord>, n: nat)
    requires st.cursor <= |st.records| && n < |records|
  {
    Answered(Asked(w, actor, Play(w, actor, st, tick, records[..n]), tick + n, records[n].command, records[n].input), records[n])
  }

  /** The records are what has happened since `st`, and `now` is where it has led. */
  ghost predicate Played(w: World, actor: string, st: EngineState, tick: nat, records: seq<StepRecord>, now: EngineState, clock: nat) {
    && st.cursor <= |st.records|
    && now == Play(w, actor, st, tick, records) && clock == tick + |records|
    && Truthful(w, actor, st, tick, records)
  }

  lemma PlayedNothing(w: World, actor: string, st: EngineState, tick: nat)
    requires st.cursor <= |st.records|
    ensures Played(w, actor, st, tick, [], st, tick)
  {
  }

  lemma PlayedOne(w: World, actor: string, st: EngineState, tick: nat, records: seq<StepRecord>, now: EngineState, clock: nat, rec: StepRecord)
    requires Played(w, actor, st, tick, records, now, clock)
    requires Answered(Asked(w, actor, now, clock, rec.command, rec.input), rec)
    ensures Played(w, actor, st, tick, records + [rec], Issued(w, actor, now, clock, rec.command, rec.input), clock + 1)
  {
    var all := records + [rec];
    assert all[..|records|] == records;
    forall n | 0 <= n < |all|
      ensures TruthfulAt(w, actor, st, tick, all, n)
    {
      if n < |records| {
        assert all[..n] == records[..n];
        assert TruthfulAt(w, actor, st, tick, records, n);
      }
    }
  }

  // ----- where the commands come from -----------------------------------------------------------

  function Outputs(records: seq<StepRecord>): seq<Json> {
    seq(|records|, i requires 0 <= i < |records| => records[i].output)
  }

  /** The record is of the planned step, its references to the outputs of earlier records filled in. */
  ghost predicate Acted(step: PlannedStep, earlier: seq<StepRecord>, rec: StepRecord) {
    rec.command == step.command && Filled(step.input, Outputs(earlier), rec.input)
  }

  /** The records from `from` on are of these steps, one after the other. */
  ghost predicate ActedOn(steps: seq<PlannedStep>, from: nat, records: seq<StepRecord>) {
    forall k :: 0 <= k < |steps| && from + k < |records| ==> Acted(steps[k], records[..from + k], records[from + k])
  }

  lemma ActedOnNothing(steps: seq<PlannedStep>, records: seq<StepRecord>)
    ensures ActedOn(steps, |records|, records)
  {
  }

  lemma ActedOnOne(steps: seq<PlannedStep>, from: nat, records: seq<StepRecord>, rec: StepRecord)
    requires ActedOn(steps, from, records) && from <= |records| < from + |steps|
    requires Acted(steps[|records| - from], records, rec)
    ensures ActedOn(steps, from, records + [rec])
  {
    var all := records + [rec];
    forall k | 0 <= k < |steps| && from + k < |all|
      ensures Acted(steps[k], all[..from + k], all[from + k])
    {
      if from + k < |records| {
        assert all[..from + k] == records[..from + k];
      } else {
        assert all[..from + k] == records;
      }
    }
  }

  /** One batch the planner has proposed: what it saw, and which record is the first of it. */
  datatype Batch = Batch(from: nat, state: EngineState, seen: Observation, steps: seq<PlannedStep>)

  /** Where the batches began, and what they were. */
  datatype Story = Story(st: EngineState, tick: nat, batches: seq<Batch>)

  /** What the planner is shown before iteration `iteration`. */
  function Seen(w: World, budget: Budget, goal: Option<string>, iteration: nat, records: seq<StepRecord>, st: EngineState): (o: Observation)
    requires |records| <= budget.maxCommands
  {
    Observation(iteration, records, if goal.None? then None else Some(EvalGoal(w.env, st.graph.objects, goal.value).text),
                goal, budget.maxCommands - |records|)
  }

  /** Where the batch after the first `t` begins. */
  function Due(batches: seq<Batch>, t: nat): nat
    requires t <= |batches|
  {
    if t == 0 then 0 else batches[t - 1].from + |batches[t - 1].steps|
  }

  /** Batch `t` begins where the one before ends. */
  predicate Follows(batches: seq<Batch>, t: nat)
    requires t < |batches|
  {
    batches[t].from == Due(batches, t)
  }

  /**
   Batch `t` follows on the one before. It is what the planner proposed in the state its
   predecessors' records had led to, in which the goal did not hold; it fits the budget; and
   the records from there on are of its steps.
   */
  ghost predicate Proposed(w: World, budget: Budget, actor: string, goal: Option<string>, story: Story, records: seq<StepRecord>, t: nat)
    requires story.st.cursor <= |story.st.records| && t < |story.batches|
  {
    var b := story.batches[t];
    && Follows(story.batches, t) && b.from <= |records| && b.from <= budget.maxCommands
    && b.state == Play(w, actor, story.st, story.tick, records[..b.from])
    && (goal.Some? ==> !GoalHolds(w.env, b.state.graph.objects, goal))
    && b.seen == Seen(w, budget, goal, t, records[..b.from], b.state)
    && w.plan(b.state, b.seen) == Ok(b.steps)
    && b.steps != [] && |b.steps| <= b.seen.commandsLeft
    && ActedOn(b.steps, b.from, records)
  }

  /** Every record is of a step the planner proposed, and says what came of it. */
  ghost predicate Told(w: World, budget: Budget, actor: string, goal: Option<string>, story: Story,
                       records: seq<StepRecord>, now: EngineState, clock: nat) {
    && Played(w, actor, story.st, story.tick, records, now, clock)
    && |records| <= Due(story.batches, |story.batches|)
    && forall t :: 0 <= t < |story.batches| ==> Proposed(w, budget, actor, goal, story, records, t)
  }

  lemma ToldPlayed(w: World, budget: Budget, actor: string, goal: Option<string>, story: Story,
                   records: seq<StepRecord>, now: EngineState, clock: nat)
    requires Told(w, budget, actor, goal, story, records, now, clock)
    ensures Played(w, actor, story.st, story.tick, records, now, clock)
  {
  }

  lemma ToldNothing(w: World, budget: Budget, actor: string, goal: Option<string>, st: EngineState, tick: nat)
    requires st.cursor <= |st.records|
    ensures Told(w, budget, actor, goal, Story(st, tick, []), [], st, tick)
  {
    PlayedNothing(w, actor, st, tick);
  }

  lemma {:induction false} DueGrows(batches: seq<Batch>, t: nat)
    requires t <= |batches| && forall u :: 0 <= u < |batches| ==> Follows(batches, u)
    ensures Due(batches, t) <= Due(batches, |batches|)
    decreases |batches| - t
  {
    if t < |batches| {
      assert Follows(batches, t);
      DueGrows(batches, t + 1);
    }
  }

  /** The batch the planner proposes now, acted on as far as it got. */
  lemma ToldOneMore(w: World, budget: Budget, actor: string, goal: Option<string>, story: Story,
                    earlier: seq<StepRecord>, st: EngineState, tick: nat, steps: seq<PlannedStep>,
                    records: seq<StepRecord>, now: EngineState, clock: nat)
    requires Told(w, budget, actor, goal, story, earlier, st, tick)
    requires |earlier| == Due(story.batches, |story.batches|) && |earlier| <= budget.maxCommands
    requires goal.Some? ==> !GoalHolds(w.env, st.graph.objects, goal)
    requires var seen := Seen(w, budget, goal, |story.batches|, earlier, st);
             w.plan(st, seen) == Ok(steps) && steps != [] && |steps| <= seen.commandsLeft
    requires Played(w, actor, story.st, story.tick, records, now, clock)
    requires |earlier| <= |records| <= |earlier| + |steps| && records[..|earlier|] == earlier && ActedOn(steps, |earlier|, records)
    ensures Told(w, budget, actor, goal, Extended(w, budget, goal, story, earlier, st, steps), records, now, clock)
  {
    var longer := Extended(w, budget, goal, story, earlier, st, steps);
    forall t | 0 <= t < |longer.batches|
      ensures Proposed(w, budget, actor, goal, longer, records, t)
    {
      if t < |story.batches| {
        EndsBefore(w, budget, actor, goal, story, earlier, st, tick, t);
        ProposedStill(w, budget, actor, goal, story, earlier, records, longer, t);
      }
    }
  }

  lemma EndsBefore(w: World, budget: Budget, actor: string, goal: Option<string>, story: Story,
                   records: seq<StepRecord>, now: EngineState, clock: nat, t: nat)
    requires Told(w, budget, actor, goal, story, records, now, clock) && t < |story.batches|
    ensures story.batches[t].from + |story.batches[t].steps| <= Due(story.batches, |story.batches|)
  {
    forall u | 0 <= u < |story.batches|
      ensures Follows(story.batches, u)
    {
      assert Proposed(w, budget, actor, goal, story, records, u);
    }
    DueGrows(story.batches, t + 1);
  }

  function Extended(w: World, budget: Budget, goal: Option<string>, story: Story, earlier: seq<StepRecord>, st: EngineState,
                    steps: seq<PlannedStep>): Story
    requires |earlier| <= budget.maxCommands
  {
    story.(batches := story.batches + [Batch(|earlier|, st, Seen(w, budget, goal, |story.batches|, earlier, st), steps)])
  }

  /** Later records do not change what an earlier batch is. */
  lemma ProposedStill(w: World, budget: Budget, actor: string, goal: Option<string>, story: Story,
                      earlier: seq<StepRecord>, records: seq<StepRecord>, longer: Story, t: nat)
    requires story.st.cursor <= |story.st.records| && t < |story.batches| && Proposed(w, budget, actor, goal, story, earlier, t)
    requires |earlier| <= |records| && records[..|earlier|] == earlier
    requires story.batches[t].from + |story.batches[t].steps| <= |earlier|
    requires longer.st == story.st && longer.tick == story.tick && story.batches <= longer.batches
    ensures Proposed(w, budget, actor, goal, longer, records, t)
  {
    var b := story.batches[t];
    assert longer.batches[t] == b;
    assert records[..b.from] == earlier[..b.from];
    ActedOnStill(b.steps, b.from, earlier, records);
  }

  lemma ActedOnStill(steps: seq<PlannedStep>, from: nat, earlier: seq<StepRecord>, records: seq<StepRecord>)
    requires ActedOn(steps, from, earlier) && from + |steps| <= |earlier| <= |records| && records[..|earlier|] == earlier
    ensures ActedOn(steps, from, records)
  {
    forall k | 0 <= k < |steps| && from + k < |records|
      ensures Acted(steps[k], records[..from + k], records[from + k])
    {
      assert records[..from + k] == earlier[..from + k];
      assert Acted(steps[k], earlier[..from + k], earlier[from + k]);
    }
  }
}
