# WorldOS, verified

WorldOS keeps an engineering project as a graph of typed objects and relations. Every change is
a recorded op that can be taken back, every command runs in a transaction, and requirements are
expressions over the graph whose verdicts go stale when something they read changes. This project
models the parts of it that promise something about every run, and proves those promises.

Run `dafny verify dfyconfig.toml` to check everything. Dafny 4.11 is assumed.

## How the model is laid out

- **The governed state machine.** `Graph.dfy` holds the project and the one mutation primitive, an
  op applied forward or backward; `Journal.dfy` is the theory of op lists (`Trail`: every op inverts
  in the state it was recorded in and every state on the way is sound). `Calls.dfy` describes what a
  handler may do: any finite sequence of the context helpers and meta writes, nested commands
  included, ending in success or failure anywhere. `Context.dfy`, `History.dfy` and `Engine.dfy` are
  the classes the program has, updated in place; each method is proved to compute the matching step
  of `EngineModel.dfy`, and `EngineRuns.dfy` proves the theorems about all runs. `EngineLog.dfy` is
  about what the journal says of who did what.
- **Commands.** `ObjectCommands.dfy` (lookup, cascade delete, creation under a parent),
  `RelationCommands.dfy`, `PropertyPath.dfy` (setting a property), `RequirementCommands.dfy`
  (evaluation and its dependency edges), `Staleness.dfy` (what a change marks stale) and
  `StalenessMeaning.dfy` (the same, told from the graph alone).
- **Shown verdicts.** `Freshness.dfy` is where trace, edges and marks meet: when a shown verdict is
  the one a new evaluation would give (`ShownRight`), and has an edge to everything that evaluation
  reports (`Honest`, which is what later marks rely on). `FreshnessChanges.dfy` and
  `FreshnessCommands.dfy` say what creating, updating and deleting objects and removing edges does
  to it, `FreshnessExamples.dfy` has two kinds of expression for which everything is explicit, and
  `FreshnessStory.dfy` runs from an empty project, one that keeps it right and those that do not.
- **Requirement expressions.** `Scanner.dfy` has the three scanning loops, `Requirement.dfy` the
  string-splitting evaluator, `RequirementEval.dfy` the same with a mutable set of references,
  `RequirementTrace.dfy` the terms an evaluation gets to and the frame theorem for its trace, `RequirementPrinter.dfy` and
  `RequirementRoundTrip.dfy` the expression trees, their texts and the proof that both mean the same,
  `RequirementMeaning.dfy` what that is: which number a term stands for, when a comparison holds.
- **Meshes.** `MeshVolume.dfy` (translation, scaling, volume over exact reals), `MeshClosed.dfy` and
  `Tessellate.dfy` (the index buffers, for every segment count), `MeshBox.dfy` and `SolidVolume.dfy`
  (boxes, cylinders and cones have the volumes they should), `Stl.dfy` and `Obj.dfy` (readers,
  writers, round trips), `StlLayout.dfy` and `ObjMeaning.dfy` (the formats, byte by byte and word by
  word).
- **Persistence.** `StoreRows.dfy` (rows, encoding, loading), `StoreMeaning.dfy` (which files load,
  and as what), `Store.dfy` (one database transaction and one-shot faults), `Persistence.dfy` (what an
  engine is after saving and reopening).
- **Agents and selectors.** `Agent.dfy` is the bounded loop over the engine class, `AgentInputs.dfy`
  its references to earlier outputs, `AgentStory.dfy` what it means that a report tells the run,
  `AgentGoal.dfy` and `AgentGoalExample.dfy` what becomes of its goal; `Selector.dfy` and
  `SelectorMeaning.dfy` the topology selectors and what they denote.

Modelling choices that hold throughout: ids are opaque and minted fresh; timestamps, planners, id
texts, number texts and the choice among equal names are parameters; hash maps are iterated in
arbitrary order; a handler turned away by permissions or schema validation is an `Admission` that
has no effect. Geometry is over exact reals, file coordinates are 32-bit patterns with an idempotent
quantizer. Text is a sequence of characters.

## Where the program does less than one would think

Each is stated as a lemma, with an input for which it happens and the condition under which it
does. A shown verdict is called *right* when its status is that of a new evaluation, and *honest*
when there is also an edge to every object that evaluation reports. An honest verdict is right.

- Saving while a transaction is open writes the graph with the open ops in it and a journal without
  them; the reopened engine can never take those ops back (`Persistence.SaveDuringTransaction`). The
  reopened engine satisfies the engine's invariant if and only if the saved graph reads back as what
  the saved journal tells (`Persistence.ReopenedInv`).
- `project.set_meta` with a null value is recorded as `Some(null)`, which reads back as absent. The
  saved settings still hold the null, so the reloaded journal no longer leads to the loaded graph
  (`Persistence.NullSettingLost`); with nothing open this happens exactly when some setting is null
  (`Persistence.ReopenedIdle`).
- An update closure that changes the id of its object breaks undo, unless it lands on an identical
  entry (`Calls.UpdateInvertsIff`).
- `requirement.evaluate` overwrites the status component. A requirement whose expression has just
  read a number there shows "pass" and is unknown when evaluated again
  (`FreshnessStory.SelfReadingRun`). The verdict shown is right, and likewise honest, if and only if
  it is unknown or no term that was evaluated reads that component (`Freshness.EvaluationIsHonest`);
  an expression that does not name the component is always safe
  (`Freshness.EvaluationIsHonestUnnamed`).
- Staleness marks follow the dependency edges there were. An object that appears, or gets a name or
  type that an expression asks for, has no edge yet: "exists(k)" goes on showing "fail"
  (`FreshnessStory.CreationIsOverlooked`). The verdict stays honest if and only if no evaluated term
  would find the object, a condition on the project before the command
  (`FreshnessChanges.CreationShows`, `UpdateShows`). For its being right that condition is only
  sufficient (`CreationShowsStatus`): a second object of type k leaves "pass" right, but without an
  edge to it (`FreshnessStory.SecondIsHarmless`). For "exists(k)" the exact condition is that the
  object is not of that type or "pass" is shown (`FreshnessExamples.CreationAndLooker`). A mark is not
  itself followed by marks, so an expression that reads a number in the verdict field of a
  requirement that is marked is the other way to be overlooked; where the object is not found, that
  is the exact condition for being right as well (`UpdateShowsStatus`).
- A deletion takes its edges along and marks nothing: "exists(k)" goes on showing "pass"
  (`FreshnessStory.DeletionIsOverlooked`). The evaluation is the same without the object if and only
  if it did not report it (`FreshnessChanges.DeletionTraces`). Where every term that reports the
  object needs it, that is also exactly when the verdict stays right and when it stays honest
  (`DeletionOfNeeded`); the same goes for any set of objects deleted by one command
  (`FreshnessCommands.CascadeShows`). For "exists(k)" a deletion is wrong exactly when it takes the
  only object of that type (`FreshnessExamples.DeletionAndLooker`).
- A dependency edge can be removed by hand. That leaves every verdict right, and takes its honesty
  if and only if it was the only edge to an object that is reported
  (`FreshnessCommands.EdgeRemovalShows`).
- The agent's goal predicate is checked at the end of the loop, before the task object is marked
  done. An engine run that renames its task object, puts a number at its status path and reads that
  number in the goal commits a graph in which the goal no longer holds
  (`AgentGoalExample.GoalIsLost`). The goal holds of the committed graph if and only if none of its
  terms reads the status of the task, or a note that marking writes (`AgentGoal.GoalAfterDone`, and
  part of `Agent.AgentRuntime.RunSpec`).

## Model

| member | source | states |
|---|---|---|
| ProjectGraph.Project.ApplyOp | crates/worldos-kernel/src/project.rs:112-166 | the in-place op application writes or removes exactly the addressed entity, including the reserved name key, in either direction |
| Journal.TrailUndo | crates/worldos-commands/src/txn.rs:35-40 | taking a recorded trail back, last op first, restores the graph it started from |
| Journal.TrailStates | crates/worldos-engine/src/engine.rs:315-323 | reverting only the last ops of a trail, as a failed command in an open transaction does, stops exactly in the state the first ones led to, and that state is sound |
| Context.Transaction.Revert | crates/worldos-commands/src/txn.rs:35-40 | the revert loop equals the backward run of all recorded ops |
| Calls.CallsTrail | crates/worldos-commands/src/handler.rs:17-121 | any handler, stopped at any helper call, leaves ops that invert one by one through sound graphs |
| Calls.InsertInvertsIff | crates/worldos-commands/src/handler.rs:26-35 | creation undoes cleanly if and only if the id was unused |
| Calls.UpdateInvertsIff | crates/worldos-commands/src/handler.rs:38-55 | an update undoes cleanly if and only if the closure kept the id or landed on an identical entry |
| Calls.PutInvertsIff | crates/worldos-commands/src/handler.rs:75-84 | adding a relation undoes cleanly if and only if its id was unused |
| Context.CommandContext.InsertObject | crates/worldos-commands/src/handler.rs:26-35 | graph, recorded op and call list after the helper, an id in use being overwritten; the context stays one that inverts if the id was unused |
| Context.CommandContext.UpdateObject | crates/worldos-commands/src/handler.rs:38-55 | what the edit made of the object is stored under the id it has, its revision one higher than the edit left it, with the actor and time of the update and all else as edited; the context stays one that inverts if that is the old id; a missing object is an error that changes nothing |
| Context.CommandContext.RemoveObject | crates/worldos-commands/src/handler.rs:58-73 | the object and exactly the relations touching it are gone, in whatever order the relation map yields them |
| Context.CommandContext.PutRelation | crates/worldos-commands/src/handler.rs:75-84 | an edge between existing objects is stored, over one with its id if there is one; a dangling one is refused without effect |
| Context.CommandContext.RemoveRelation | crates/worldos-commands/src/handler.rs:86-97 | exactly that edge is gone, or an error without effect |
| Context.CommandContext.Rename | crates/worldos-commands/src/builtin/meta.rs:21-31 | the name changes and the recorded op carries the old one |
| Context.CommandContext.SetMeta | crates/worldos-commands/src/builtin/meta.rs:48-66 | a setting changes, or under the reserved key the name, with an op that inverts |
| Context.CommandContext.SinceInverts | crates/worldos-commands/src/handler.rs:101-121 | everything recorded between two points of one command takes the later graph back to the earlier one |
| HistoryLog.History.Push | crates/worldos-commands/src/history.rs:24-29 | the redo tail is dropped, the record appended and renumbered |
| HistoryLog.History.Undo | crates/worldos-commands/src/history.rs:43-56 | one record taken back and flagged, the cursor one step left; nothing at the start |
| HistoryLog.History.Redo | crates/worldos-commands/src/history.rs:59-71 | one record applied again and unflagged, the cursor one step right; nothing at the end |
| HistoryLog.History.Replay | crates/worldos-commands/src/history.rs:75-83 | objects and relations are rebuilt from the applied records, name and settings are not cleared |
| GovernedEngine.Engine.Execute | crates/worldos-engine/src/engine.rs:238-337 | the whole new state of a command: rejection, success with marks, failure cut out and taken back, own or caller's transaction; the last record of the log tells command, actor, inputs and whether it succeeded, with that output or error |
| GovernedEngine.Engine.MarkStaleDependents | crates/worldos-engine/src/engine.rs:345-418 | the marking loop appends exactly the ops of the specified marks, in ascending id order |
| GovernedEngine.Engine.BeginTransaction | crates/worldos-engine/src/engine.rs:432-444 | opens an empty transaction, or refuses because one is open |
| GovernedEngine.Engine.CommitTransaction | crates/worldos-engine/src/engine.rs:446-476 | an empty transaction vanishes, any other becomes the newest record |
| GovernedEngine.Engine.RollbackTransaction | crates/worldos-engine/src/engine.rs:478-482 | the open ops are taken back and nothing else changes |
| GovernedEngine.Engine.UndoLast | crates/worldos-engine/src/engine.rs:490-500 | the undo step, refused while a transaction is open |
| GovernedEngine.Engine.RedoNext | crates/worldos-engine/src/engine.rs:502-512 | the redo step, refused while a transaction is open |
| EngineModel.StepKeepsInv | crates/worldos-engine/src/engine.rs:238-512 | execute, begin, commit, rollback, undo and redo each keep the invariant tying graph, journal, cursor and open transaction together |
| EngineRuns.EveryReachableState | crates/worldos-engine/src/engine.rs:238-512 | in every reachable state the live graph is the applied journal prefix plus the open ops on the initial graph, the journal is well numbered, and the graph is sound |
| EngineRuns.UndoThenRedo | crates/worldos-commands/src/history.rs:43-71 | redo after undo gives back the state, but for the dirty flag |
| EngineRuns.RedoThenUndo | crates/worldos-commands/src/history.rs:43-71 | undo after redo gives back the state, but for the dirty flag |
| EngineRuns.UndoAll | crates/worldos-engine/src/engine.rs:490-500 | undoing everything gives the initial graph, name and settings included |
| EngineRuns.RedoAll | crates/worldos-engine/src/engine.rs:502-512 | redoing everything gives the graph of the whole journal |
| EngineRuns.UndoAllRedoAll | crates/worldos-engine/src/engine.rs:490-512 | after any run that ends at its newest record, undoing all and redoing all restores graph, records and cursor |
| EngineRuns.RollbackRestores | crates/worldos-engine/src/engine.rs:422-482 | whatever is attempted between begin and rollback, the state before begin comes back exactly |
| EngineRuns.FailureLeavesNothing | crates/worldos-engine/src/engine.rs:268-336 | a failing command leaves at most a failed record in a caller's transaction, and nothing at all without one |
| EngineRuns.CommandUndoes | crates/worldos-engine/src/engine.rs:268-336 | a stand-alone success is one record, and one undo takes it back with its marks |
| EngineRuns.EveryStateMetIsSound | crates/worldos-kernel/src/project.rs:169-174 | no state passed through inside any step dangles, reverts and undo included |
| EngineRuns.ReplayIsIdentity | crates/worldos-commands/src/history.rs:75-83 | replay over the live project of any run from an empty graph changes nothing |
| EngineRuns.CommandMarksDependents | crates/worldos-engine/src/engine.rs:345-418 | after a successful command no object it set and no source of a surviving dependency edge into one still shows pass or fail |
| EngineLog.TransactionTells | crates/worldos-engine/src/engine.rs:422-476 | a transaction that is begun, worked in and committed is one record that carries who began it, under what title and when, and in order every command that was let through in it, failed ones included, each with its outcome |
| EngineLog.AloneTells | crates/worldos-engine/src/engine.rs:268-336 | a command on its own is one transaction named after it, at its own time, with that command on file |
| EngineLog.CleanMeansUnchanged | crates/worldos-engine/src/engine.rs:446-512 | as long as the dirty flag is down after a run, journal and cursor are those it started with |
| Staleness.NoStaleVerdictSurvives | crates/worldos-engine/src/engine.rs:345-418 | marking clears every such verdict and changes no other object, no relation, name or setting |
| Staleness.MarkOpsEffect | crates/worldos-engine/src/engine.rs:345-418 | marking is a trail, so it undoes with its command, and its effect is the simultaneous marking of the selected requirements |
| StalenessMeaning.MarkingMeans | crates/worldos-engine/src/engine.rs:345-418 | told from the graph: an object is marked if and only if it shows pass or fail and a recorded op wrote or deleted it or something it has a dependency edge to, and the command is none that writes verdicts itself; a mark sets the status to stale, appends the note to the verdict, trimmed, bumps revision, time and actor, and leaves all else |
| StalenessMeaning.CommandMarks | crates/worldos-engine/src/engine.rs:268-418 | the same of one step of the engine, for the graph its handler has left |
| ObjectCommands.CollectSubtree | crates/worldos-kernel/src/project.rs:176-194 | terminates on any graph, cycles included, and lists without repetition exactly what is reachable by containment |
| ObjectCommands.ResolveObject | crates/worldos-commands/src/builtin/object.rs:13-31 | what is found has the id given or, if none is, bears the name given, and it exists; something is found if and only if there is such an object; each failure names its reason |
| ObjectCommands.ResolveParent | crates/worldos-commands/src/builtin/object.rs:69-73 | the parent found has the text as its id or, if it is none of an object there is, as its name |
| ObjectCommands.ObjectDelete | crates/worldos-commands/src/builtin/object.rs:95-114 | it succeeds if and only if an object has the id or bears the name asked for; then such an object, or what it reaches by containment, goes, with exactly the relations touching what goes; the ops take it back; a failed lookup changes nothing |
| ObjectCommands.ObjectCreate | crates/worldos-commands/src/builtin/object.rs:53-75 | the stored object has the type, name, components and string tags of the request, revision zero and the actor and time of the command; the parent is looked up by id, then by name, among objects that include it; an unknown one fails with the insertion recorded, a known one gets a containment edge to the object |
| ObjectCommands.TagsAreStrings | crates/worldos-commands/src/builtin/object.rs:62-67 | a tag is kept if and only if it is a string |
| RelationCommands.RelationAdd | crates/worldos-commands/src/builtin/relation.rs:30-55 | it succeeds if and only if each endpoint means an object that exists; the edge stored has the type asked for and joins two such objects, and the ops invert |
| RelationCommands.RelationRemove | crates/worldos-commands/src/builtin/relation.rs:76-96 | by id or by type and ends: exactly one edge that is meant goes, and it succeeds if and only if there is one; a malformed id is refused |
| RelationCommands.RelationRemoveBetween | crates/worldos-commands/src/builtin/relation.rs:84-95 | removes exactly one edge of that type between those ends, and succeeds if and only if there is one |
| RelationCommands.ResolveEndpoint | crates/worldos-commands/src/builtin/relation.rs:43-55 | what is found is the object the text is the id of or, if it reads as no id, one that bears it as a name; something is found if and only if there is one |
| PropertyPath.SetThenWalk | crates/worldos-commands/src/builtin/object.rs:187-204 | setting works on any object data, and walking the same path then finds the value |
| PropertyPath.SetElsewhere | crates/worldos-commands/src/builtin/object.rs:187-204 | a path that parts from the one set leads where it led before |
| PropertyPath.SetThenRead | crates/worldos-commands/src/builtin/object.rs:169-204 | a number put there is what an expression naming component and path reads |
| RequirementCommands.SyncDepEdges | crates/worldos-commands/src/builtin/requirement.rs:108-145 | the dependency targets become exactly the traced objects, no other relation changes |
| RequirementCommands.RequirementEvaluate | crates/worldos-commands/src/builtin/requirement.rs:82-104 | the i-th verdict is that of evaluating the i-th target on the objects with the earlier verdicts written; each target carries its verdict and has edges to exactly what its evaluation traced; all other objects and relations, name and settings are as they were; the ops take it all back |
| Freshness.EvaluationIsHonest | crates/worldos-commands/src/builtin/requirement.rs:83-103 | after evaluation what is shown is what evaluating again says, with edges or for the status alone, if and only if the verdict is unknown or no evaluated term reads the requirement's own status component |
| Freshness.EvaluationIsHonestUnnamed | crates/worldos-commands/src/builtin/requirement.rs:83-103 | it is so for every expression that does not name the status component |
| Freshness.OtherWritten | crates/worldos-commands/src/builtin/requirement.rs:83-103 | writing another requirement's verdict leaves a shown one right if and only if its evaluation does not read that status component |
| Freshness.EvaluateKeepsHonest | crates/worldos-commands/src/builtin/requirement.rs:72-105 | evaluating any list of requirements leaves every requirement's shown verdict right, the listed ones and the others, unless one has read a status component about to be written |
| FreshnessExamples.SelfReadingIsNotHonest | crates/worldos-commands/src/builtin/requirement.rs:83-103 | a requirement that reads a 1 in its own status component passes, and the pass it then shows is not what an evaluation says |
| FreshnessStory.SelfReadingRun | crates/worldos-commands/src/builtin/requirement.rs:83-103 | the legal run that creates and evaluates such a requirement ends with it showing pass, which is wrong |
| Freshness.MarkedField | crates/worldos-engine/src/engine.rs:402-416 | a staleness mark is invisible to every field read but that of the verdict, where no number is left |
| Freshness.CommandKeepsHonest | crates/worldos-engine/src/engine.rs:345-418 | a verdict still shown after a command is the one an evaluation would give, where the names and types it looked up answer alike, its edges are kept and it read no marked verdict field |
| Freshness.VerdictsAreNeverOutdated | crates/worldos-engine/src/engine.rs:345-418 | over any run, from an empty project too, with creations, deletions, failures, undo and redo: a shown verdict is never outdated, if each command that leaves it shown is an evaluation by its contract or respects what was looked up |
| Freshness.EditsNeverOutdate | crates/worldos-engine/src/engine.rs:345-418 | over any run of evaluations and edits that keep names and types, with an expression that names no status component, a shown verdict is never outdated |
| FreshnessStory.StoryIsFresh | crates/worldos-commands/src/builtin/requirement.rs:72-105 | from an empty project: creating a requirement and the object it asks for and evaluating it is a legal run that owes nothing that `VerdictsAreNeverOutdated` asks for and ends with the requirement showing pass |
| FreshnessChanges.CreationShows | crates/worldos-engine/src/engine.rs:345-418 | after creating an object a shown verdict is right with an edge to everything its evaluation reports, if and only if no evaluated term would find the object |
| FreshnessChanges.CreationShowsStatus | crates/worldos-engine/src/engine.rs:345-418 | for the status alone that is sufficient; a found object makes it wrong or leaves something reported without an edge |
| FreshnessCommands.CreationUnderParentShows | crates/worldos-commands/src/builtin/object.rs:53-75 | creation under a parent: as for creation alone |
| FreshnessChanges.UpdateShows | crates/worldos-commands/src/builtin/object.rs:134-149 | after a rename, or any update, a shown verdict is stale, or right with an edge to everything its evaluation reports, if and only if the requirement is the updated object, has an edge to it, or overlooks neither the object under its new name and type nor a marked verdict field it read |
| FreshnessChanges.UpdateShowsStatus | crates/worldos-commands/src/builtin/object.rs:134-149 | for the status alone that is sufficient, and also necessary where the evaluation does not find the object; where it does, the status is wrong or something is reported without an edge |
| FreshnessChanges.DeletionTraces | crates/worldos-kernel/src/requirement.rs:50-86 | an evaluation is the same without an object, trace included, if and only if it did not report it |
| FreshnessChanges.DeletionOfNeeded | crates/worldos-commands/src/handler.rs:58-73 | where every term reporting the object needs it: after its deletion a shown verdict is right, and right with all its edges, if and only if the object was not reported |
| FreshnessChanges.DeletionShows | crates/worldos-commands/src/handler.rs:58-73 | in general: nothing is marked; right exactly when the answer without the object has the same status, and with an edge to everything reported exactly when the object was not reported or that answer also has its edges |
| FreshnessCommands.CascadeTraces | crates/worldos-kernel/src/requirement.rs:50-86 | an evaluation is the same without a set of objects if and only if it reported none of them |
| FreshnessCommands.CascadeShows | crates/worldos-commands/src/builtin/object.rs:95-114 | any number of deletions in one command mark nothing and keep a shown verdict that reported none of the objects; where every reporting term needs one, exactly then, for the status alone as well |
| FreshnessCommands.EdgeRemovalShows | crates/worldos-commands/src/handler.rs:86-97 | removing a relation leaves every shown status right; everything reported keeps an edge if and only if this was not the only one to a reported object |
| FreshnessStory.CreationIsOverlooked | crates/worldos-engine/src/engine.rs:345-418 | the legal run that creates exists(k), evaluates it and creates an object of type k ends with it still showing fail, which is wrong |
| FreshnessStory.DeletionIsOverlooked | crates/worldos-engine/src/engine.rs:345-418 | the legal run that creates exists(k) and its object, evaluates and deletes the object ends with it still showing pass, which is wrong |
| FreshnessStory.SecondIsHarmless | crates/worldos-engine/src/engine.rs:345-418 | the legal run that creates a second object of type k instead ends with pass shown and right, though the evaluation finds that object and has no edge to it |
| FreshnessExamples.CreationAndLooker | crates/worldos-engine/src/engine.rs:345-418 | for exists(k) the exact condition on the status alone: the object created is not of type k, or pass is shown |
| FreshnessExamples.DeletionAndLooker | crates/worldos-engine/src/engine.rs:345-418 | for exists(k): the object deleted was not the only one of type k |
| Scanner.SplitTopLoop | crates/worldos-kernel/src/requirement.rs:155-180 | the loop computes the recursive splitting at separators outside quotes and parentheses |
| Scanner.BalancedLoop | crates/worldos-kernel/src/requirement.rs:185-205 | the loop decides the recursive balance predicate |
| Scanner.SplitCmpLoop | crates/worldos-kernel/src/requirement.rs:231-258 | the loop finds the first comparison operator outside quotes and parentheses |
| RequirementEval.Evaluate | crates/worldos-kernel/src/requirement.rs:44-151 | the evaluator that threads a mutable reference set gives the specified status, text and trace; what those are is the subject of the rows of RequirementMeaning |
| RequirementEval.Evaluator.Not | crates/worldos-kernel/src/requirement.rs:125-151 | negation, groups and the depth cap, with the set growing by exactly the traced objects |
| RequirementTrace.TraceSound | crates/worldos-kernel/src/requirement.rs:50-151 | projects that answer the names and types one evaluation looks up alike, and agree on the components of every object it reports, give the same status, text and trace |
| RequirementTrace.VerdictTraces | crates/worldos-kernel/src/requirement.rs:50-151 | the objects a verdict reports are exactly those of the terms the evaluation gets to, short-circuits and errors included; pass or fail needs an answer from each of them |
| RequirementTrace.VerdictFollows | crates/worldos-kernel/src/requirement.rs:88-151 | if all of these answer alike in another project, the verdict is the same; if one does not, one does not that both evaluations get to |
| RequirementTrace.RefsExist | crates/worldos-kernel/src/requirement.rs:260-363 | every traced object exists |
| RequirementRoundTrip.PrintedMeaning | crates/worldos-kernel/src/requirement.rs:86-255 | evaluating the text of any expression tree gives its short-circuit meaning: value, error and trace, with the cap playing no part down to 128 levels; every literal the number parser takes may occur, and arguments may hold balanced parentheses and quotes |
| RequirementMeaning.VerdictIsTruth | crates/worldos-kernel/src/requirement.rs:59-151 | a requirement whose terms all have answers, nested at most 128 deep, passes if its formula is true and fails if it is false: truth as in logic over comparisons of the numbers its terms stand for |
| RequirementMeaning.ComparisonMeans | crates/worldos-kernel/src/requirement.rs:207-341 | for terms that stand for x and y, a comparison passes if and only if x >= y, x <= y, x > y, x < y, |x - y| < 2^-52 or |x - y| >= 2^-52, as its operator says, infinities and NaN included; it reports exactly the objects the two terms are about |
| RequirementMeaning.ComparisonUnanswered | crates/worldos-kernel/src/requirement.rs:207-341 | if a side has no answer the verdict is unknown, and the right side is looked at if and only if the left one has one |
| RequirementMeaning.CountAtLeast | crates/worldos-kernel/src/requirement.rs:290-295 | "count(k) >= n" passes if and only if the set of objects of type k has at least n members |
| RequirementMeaning.CapIs128 | crates/worldos-kernel/src/requirement.rs:97-150 | a term with an answer behind n negations is unknown if and only if n is greater than 128 |
| RequirementMeaning.VerdictSays | crates/worldos-kernel/src/requirement.rs:59-80 | the text of a verdict quotes the expression and says satisfied, not satisfied or why it cannot be evaluated, as the status does; a blank expression is unknown |
| RequirementMeaning.VerdictIsWritten | crates/worldos-commands/src/builtin/requirement.rs:82-104 | the status component that is written holds "pass", "fail" or "unknown" and the text, and nothing else of the object changes |
| RequirementPrinter.EveryNumberIsOk | crates/worldos-kernel/src/requirement.rs:260-268 | the trees can hold exactly the literals that parse as numbers, exponents, inf and nan included |
| RequirementMeaning.TermsSpell | crates/worldos-kernel/src/requirement.rs:260-347 | the texts of the terms the theorems are about, letter by letter |
| RequirementRoundTrip.SplitsAtOp | crates/worldos-kernel/src/requirement.rs:231-258 | a printed comparison is cut at its own operator |
| MeshVolume.Mesh.Translate | crates/worldos-kernel/src/mesh.rs:64-71 | every vertex is shifted in place |
| MeshVolume.Mesh.Scale | crates/worldos-kernel/src/mesh.rs:74-81 | every vertex is scaled in place |
| MeshVolume.Mesh.ComputeVolume | crates/worldos-kernel/src/mesh.rs:86-99 | the accumulating loop computes a sixth of the sum of determinants of the whole triangles; that this is the volume, sign included, is the subject of the rows of MeshBox and SolidVolume |
| MeshBox.BoxVolume | crates/worldos-kernel/src/mesh.rs:86-303 | the twelve triangles of a box with sides a, b and c have the signed volume a*b*c |
| MeshBox.TetrahedronVolume | crates/worldos-kernel/src/mesh.rs:86-99 | the triangle over the axis points a, b and c has the signed volume a*b*c/6 |
| MeshBox.MeasureBox | crates/worldos-kernel/src/mesh.rs:86-303 | the measuring loop, on the box, returns a*b*c |
| SolidVolume.CylinderVolume | crates/worldos-kernel/src/mesh.rs:343-369 | over any ring of points the tessellated cylinder has the area of the polygon, by the shoelace formula, times its height |
| SolidVolume.ConeVolume | crates/worldos-kernel/src/mesh.rs:343-386 | over any ring of points the tessellated cone has a third of that |
| SolidVolume.MeasureCylinder | crates/worldos-kernel/src/mesh.rs:86-369 | the index loop, the mesh and the measuring loop together return that volume |
| MeshVolume.Mesh.Place | crates/worldos-kernel/src/mesh.rs:192-209 | a placed mesh whose edges cancel has the stored volume times the three factors, wherever it stands |
| MeshVolume.PlacedVertex | crates/worldos-kernel/src/mesh.rs:64-81 | a placed vertex is scaled and then moved, coordinate by coordinate |
| MeshVolume.ScaledVolume | crates/worldos-kernel/src/mesh.rs:74-99 | scaling multiplies the volume of any mesh by the product of the factors |
| MeshVolume.TranslatedVolume | crates/worldos-kernel/src/mesh.rs:64-99 | translation keeps the volume of a mesh whose directed edges cancel in pairs |
| MeshClosed.ClosedCancels | crates/worldos-kernel/src/mesh.rs:305-417 | a closed, consistently oriented buffer has cancelling edges |
| MeshClosed.CompleteListIsClosed | crates/worldos-kernel/src/mesh.rs:305-386 | any listing of all slots of a solid of revolution is closed and consistently oriented |
| MeshClosed.CompleteTorusIsClosed | crates/worldos-kernel/src/mesh.rs:388-417 | any listing of all slots of a torus grid is closed and consistently oriented |
| Tessellate.ConeIndices | crates/worldos-kernel/src/mesh.rs:371-386 | for every n of at least 3: indices in range, every directed edge once and its reverse once, exactly the edges of the cone |
| Tessellate.CylinderIndices | crates/worldos-kernel/src/mesh.rs:350-369 | the same for the cylinder |
| Tessellate.SphereIndices | crates/worldos-kernel/src/mesh.rs:305-341 | the same for the sphere, for every longitude count of at least 3 and stack count of at least 2 |
| Tessellate.TorusIndices | crates/worldos-kernel/src/mesh.rs:388-417 | the same for the torus |
| Tessellate.ClosedVolumeMoves | crates/worldos-kernel/src/mesh.rs:64-99 | a closed buffer keeps its volume wherever its vertices are moved |
| Stl.ToBinaryStl | crates/worldos-kernel/src/mesh.rs:454-476 | the writer emits header, count and one record for each whole triangle, normals from quantized corners; where every byte stands is the subject of StlLayout.WrittenFile |
| StlLayout.WrittenFile | crates/worldos-kernel/src/mesh.rs:454-476 | byte by byte: the text of the header and zeros up to 80, the count, lowest byte first, and at 84 + 50*t the normal of the corners of triangle t as they are stored, at +12, +24 and +36 these corners, at +48 two zeros; nothing else |
| Stl.ParseStl | crates/worldos-kernel/src/mesh_import.rs:80-167 | the reader accepts exactly the buffers of at least the declared length, trailing bytes allowed, within the cap and with finite coordinates, and welds them exactly |
| StlLayout.VerdictMeans | crates/worldos-kernel/src/mesh_import.rs:98-141 | which files get to the facet loop, and for each refusal exactly the files it is given to, the cap of 100000 and text that begins with "solid" and mentions "facet" included |
| Stl.Facets | crates/worldos-kernel/src/mesh_import.rs:143-167 | the weld loop: distinct vertices in order of first occurrence, each corner with its own coordinates |
| Stl.WeldUnique | crates/worldos-kernel/src/mesh_import.rs:143-167 | that description determines vertices and indices |
| Stl.WriteReadWrite | crates/worldos-kernel/src/mesh_import.rs:98-167 | write, parse, write is byte-identical for 1 to 100000 triangles with finite quantized coordinates |
| Obj.FanBoundary | crates/worldos-kernel/src/mesh_import.rs:223-227 | a fan's directed edges are the polygon's boundary plus every diagonal once in each direction |
| Obj.FanLoop | crates/worldos-kernel/src/mesh_import.rs:223-227 | the loop appends the fan, two triangles fewer than corners |
| Obj.IndexMeans | crates/worldos-kernel/src/mesh_import.rs:195-218 | a token names vertex v of n if and only if its number before the first slash is v + 1 or v - n |
| Obj.IndexNames | crates/worldos-kernel/src/mesh_import.rs:195-218 | every vertex is named by its number from one and by its distance back from the last, whatever follows a slash |
| Obj.FromObj | crates/worldos-kernel/src/mesh_import.rs:171-239 | the line loop computes the recursive reader, errors and line numbers included |
| ObjMeaning.FileIsRead | crates/worldos-kernel/src/mesh_import.rs:171-239 | the file is read line by line from the empty mesh: each line adds the vertex or the polygon fan its words ask for, or nothing, or is the first with a problem and counted from one; a file without a triangle is refused |
| ObjMeaning.LineIsRead | crates/worldos-kernel/src/mesh_import.rs:181-232 | what one line does: comments, blank lines and other keywords nothing, "v" a vertex of its three numbers, "f" the fan of corners named from one or back from the last, each refusal with its reason |
| ObjMeaning.WordsMean | crates/worldos-kernel/src/mesh_import.rs:176-184 | the words of a line are what stands between white space |
| Obj.AcceptedIsSane | crates/worldos-kernel/src/mesh_import.rs:171-239 | every accepted file is 1 to 100000 whole triangles with all indices in range |
| Obj.ToObj | crates/worldos-kernel/src/mesh.rs:481-490 | the writer loops emit the header, one line for each vertex and one for each whole triangle |
| Obj.WriteThenRead | crates/worldos-kernel/src/mesh_import.rs:171-239 | reading undoes writing: the same vertices and indices in the same order |
| ProjectStore.FaultInjector.Check | crates/worldos-store/src/fault.rs:102-112 | fires if and only if armed, and disarms exactly one occurrence |
| ProjectStore.Store.Save | crates/worldos-store/src/sqlite.rs:283-367 | the first armed point decides the outcome; before the commit the file is untouched, after it the new snapshot is complete |
| StoreMeaning.FirstArmedDecides | crates/worldos-store/src/sqlite.rs:283-367 | of the seven points a save passes, in their order, the first that is armed is the error; without one the save succeeds |
| ProjectStore.Store.Load | crates/worldos-store/src/sqlite.rs:140-281 | the row loops compute the specified snapshot or error for any rows, with any faults armed |
| StoreRows.LoadUndoesSave | crates/worldos-store/src/sqlite.rs:140-367 | loading what a save left gives project, journal and the same cursor, up to optional JSON values written as null |
| StoreRows.RoundTripExact | crates/worldos-store/src/sqlite.rs:140-367 | the round trip is the identity if and only if no optional JSON value is present and null |
| StoreMeaning.LoadMeans | crates/worldos-store/src/sqlite.rs:140-281 | a file loads if and only if every column that has to parse does; what it loads as is told row by row, the last row for an id deciding, unreadable relation metadata dropped, and the cursor stands behind the last record that is not undone |
| StoreMeaning.LoadFaults | crates/worldos-store/src/sqlite.rs:140-281 | on a file that loads, an armed fault fires where it stands and only if loading gets there; otherwise arming changes nothing |
| StoreRows.CursorReadsBack | crates/worldos-store/src/sqlite.rs:266-273 | the length of the undone suffix gives the cursor back |
| ProjectStore.WithoutOne | crates/worldos-store/src/fault.rs:102-112 | arming a point twice makes it fire twice: one firing spends one occurrence |
| Persistence.SaveAs | crates/worldos-engine/src/engine.rs:101-118 | only the dirty flag changes, and only on success; the file is old or new |
| Persistence.OpenFrom | crates/worldos-engine/src/engine.rs:81-93 | the opened engine has the loaded graph, records and cursor, nothing open, not dirty |
| Persistence.SavedEngineOpens | crates/worldos-engine/src/engine.rs:81-118 | the file of any reachable engine opens, and what it opens as is the kept graph, journal and cursor |
| Persistence.OldOrNew | crates/worldos-store/src/fault.rs:33-64 | after a save that met any fault the file loads as the old snapshot or, if the commit went through, the new one |
| Persistence.ReopenedInv | crates/worldos-engine/src/engine.rs:81-118 | a reopened engine satisfies the invariant of all runs if and only if the saved graph reads back as what the saved journal tells |
| Persistence.ReopenedIdle | crates/worldos-engine/src/engine.rs:81-118 | with no pending ops: if and only if no setting is null |
| Persistence.ReopenedPlain | crates/worldos-engine/src/engine.rs:81-118 | with plain values: if and only if what is open has changed nothing so far |
| Persistence.ReopenedUndoes | crates/worldos-engine/src/engine.rs:81-118 | a reopened engine undoes exactly as the running one would have |
| Persistence.ToldApply | crates/worldos-store/src/sqlite.rs:188-281 | reading back commutes with applying an op in either direction |
| Persistence.SaveDuringTransaction | crates/worldos-engine/src/engine.rs:101-118 | the run that begins a transaction and inserts an object, saved there, leaves a file whose engine breaks the invariant |
| Persistence.NullSettingLost | crates/worldos-commands/src/builtin/meta.rs:48-66 | after the run that sets a setting to null the setting survives in the graph but not in the reloaded journal |
| Agent.AgentRuntime.RunSpec | crates/worldos-agent/src/runtime.rs:164-444 | for any planner and handlers: bounded steps and iterations; failed or unsupported leaves the whole engine state as it was; success is at most one undoable record. The report is the run: each step is one of a batch the planner proposed for what it was shown in the state reached by then, its references to outputs filled in; its outcome is what the engine answered; the loop's last state is that of executing exactly these commands on these inputs in order, and the committed one is that with the task marked done. Why the run ended holds in that state. Every reported object exists in the committed graph; the goal holds of it if and only if it does not read what that mark writes |
| Agent.AgentRuntime.Cycle | crates/worldos-agent/src/runtime.rs:222-366 | one inspect, plan, act and verify cycle keeps the run inside its transaction and its budgets, extends the story by one batch at most, and explains why it stops if it does |
| Agent.AgentRuntime.Act | crates/worldos-agent/src/runtime.rs:309-350 | record start + k has the command of step k and its input with the references filled in from the records before; the engine state is that of executing these commands; it stops at the first that fails |
| Agent.AgentRuntime.Verify | crates/worldos-agent/src/runtime.rs:492-527 | finds the first step whose reported id names nothing, if there is one |
| AgentInputs.ResolveFills | crates/worldos-agent/src/runtime.rs:463-490 | in any input, however nested, every string that spells a reference to an output there is becomes what that output holds at the path, null where there is nothing, and all else stays as it is |
| AgentInputs.ResolveAddressed | crates/worldos-agent/src/runtime.rs:463-490 | a placeholder stands for what the earlier output holds at its path, of any length, and null where there is nothing |
| AgentInputs.ResolvePlain | crates/worldos-agent/src/runtime.rs:463-490 | an input without placeholders is passed on unchanged |
| Agent.RollbackWithin | crates/worldos-agent/src/runtime.rs:369-395 | rolling back from anywhere inside the run gives exactly the state before it |
| Agent.PlayedByAgent | crates/worldos-agent/src/runtime.rs:171-193 | every command on file in the open transaction is the agent's, as is the transaction |
| AgentStory.ToldOneMore | crates/worldos-agent/src/runtime.rs:222-366 | a batch acted on continues a true story: earlier records keep their meaning |
| Agent.CommitWithin | crates/worldos-agent/src/runtime.rs:408-411 | committing puts the engine at most one record ahead, one undo away from the graph before |
| Agent.ExecuteKeepsKeys | crates/worldos-agent/src/runtime.rs:397-407 | a command that only updates objects, its marks included, neither creates nor removes anything |
| Agent.ExecuteSetsProperty | crates/worldos-commands/src/builtin/object.rs:169-184 | setting a property is refused without effect or is the one update of that object, component and path, with the marks that follow |
| AgentGoal.GoalAfterDone | crates/worldos-agent/src/runtime.rs:222-232 | a goal that held when the loop ended holds of the committed graph if and only if no evaluated term reads the task's status or a note that marking writes |
| AgentGoalExample.GoalIsLost | crates/worldos-agent/src/runtime.rs:397-408 | a legal engine run from an empty project, of the commands an agent run would issue, whose goal holds at the last look and not of what is committed |
| Agent.Decide | crates/worldos-agent/src/runtime.rs:254-307 | a batch runs only if it is not empty and fits the remaining budget; unsupported only counts before the first iteration |
| TopologySelector.TargetIsKind | crates/worldos-cad/src/selector.rs:120-175 | the static check accepts exactly the selectors of one kind and names it |
| TopologySelector.Resolver.Resolve | crates/worldos-cad/src/selector.rs:209-385 | the accumulator loops compute the specified resolution; what it means in coordinates is the subject of the rows of SelectorMeaning |
| SelectorMeaning.ResolutionMeaning | crates/worldos-cad/src/selector.rs:209-449 | a checked selector never meets a kind error or the empty-operand panic, fails exactly on a stale id, a bad direction or a tie, and otherwise gives the set it denotes, which is told in coordinates |
| SelectorMeaning.OrderDoesNotMatter | crates/worldos-cad/src/selector.rs:209-449 | neither value nor failure depends on the order of faces and edges |
| SelectorMeaning.ResolvedInView | crates/worldos-cad/src/selector.rs:209-449 | only ids of the selector's kind that the view has are selected |
| SelectorMeaning.ExtremeMeaning | crates/worldos-cad/src/selector.rs:402-426 | the farthest faces within tolerance, ambiguous if and only if two qualify |
| SelectorMeaning.TopIsHighest | crates/worldos-cad/src/selector.rs:277-281 | when top_face resolves, it gives exactly the faces whose normal is aligned with (0,0,1) and whose center is within tolerance of the greatest z among such faces |
| SelectorMeaning.BottomIsLowest | crates/worldos-cad/src/selector.rs:282-286 | when bottom_face resolves, it gives exactly the faces whose normal is aligned with (0,0,-1) and whose center is within tolerance of the least z among such faces |
| SelectorMeaning.ExtremeFaceIsOutermost | crates/worldos-cad/src/selector.rs:273-276 | when an extreme face resolves, it is exactly the one whose center has a product with the unit direction within tolerance of the greatest |
| SelectorMeaning.ExtremeEdgesAreOutermost | crates/worldos-cad/src/selector.rs:337-353 | extreme edges are exactly those whose midpoint has a product with the unit direction within tolerance of the greatest |

## Left out

- The CAD kernel adapter, CLI, desktop, transports, plugin hosting, search, events and artifact files: plumbing around the engine.
- Planners and language models: the planner is an arbitrary function of state and observation.
- Schema validation and permission matching: only that a rejected command has no effect.
- Sixty-four-bit counters, vertex numbers beyond 32 bits and UTF-8 offsets: integers are unbounded except where a cap or a format fixes the width.
- Rounding, NaN payloads, trigonometric vertex positions, facet normals: the volume theorems are over exact reals, the STL normal is an arbitrary function of quantized corners.
- The plane mesh: a constant index list. That the box closes, and that spheres and tori are wound outward, is not stated; surface areas and bounding boxes are not modelled.
- SQLite itself: an uncommitted transaction is taken to leave no trace, a committed one to be durable; column encodings are inverse pairs but for null options. Schema migrations and torn writes below the transaction are not modelled.
- `diff_projects`, report texts, event payloads and the verification evidence strings of an agent report.
- Handlers of the remaining builtin commands: all of them are sequences of the same helpers, so the theorems about every run cover them.
- Calls.CallsTrail: assumes freshly minted ids and update closures that keep the id of their object; `InsertInvertsIff`, `UpdateInvertsIff` and `PutInvertsIff` show that exactly this is needed.
- Context.CommandContext.InsertObject: that a context stays one whose ops invert is promised for an unused id only; likewise `UpdateObject` for a kept id and `PutRelation` for an unused one, which is exactly when it is so.
- ObjectCommands.ObjectCreate: assumes freshly minted object and relation ids.
- RequirementCommands.RequirementEvaluate: which requirements are the targets, one or all, is a parameter.
- Freshness.VerdictsAreNeverOutdated: a command named `requirement.set_status`, which is exempt from marking but has no handler in the repository, is asked to set the true status; measuring an object is taken to look at its mesh, geometry and transform components only, as `measure.rs` does.
- FreshnessChanges.CreationShows: among equal names `find_by_name` is taken to keep its choice when another bearer of the name appears that it does not choose, or goes away; the hash map promises no order at all. Names borne by one object do not need this. The same holds of the other lemmas of that file and of `FreshnessCommands`.
- FreshnessChanges.CreationShowsStatus: for the status alone no exact condition is given beyond "exists(k)"; which values a found object changes, and whether comparisons feel it, is the evaluation itself.
- AgentGoalExample.GoalIsLost: is a run of the engine, not of `Agent.AgentRuntime.RunSpec`, whose planner and handlers are arbitrary.
- PropertyPath.WithProperty: where a path of several segments leads into a component whose data is no object, the program panics; the model has no edit there.
- EngineRuns.CommandMarksDependents: says nothing of dependency edges that the command itself removed, as the marking loop looks at the edges that are left.
- EngineRuns.ReplayIsIdentity: is about engines started from an empty graph, the only ones replay is meant for.
- MeshVolume.Mesh.Place: the branch with a stored mesh, scale and position given; decoding the components and the primitive branch are not modelled.
- Persistence.SaveAs: the remembered path and the artifact sidecar are not part of the model.
- Obj.WriteThenRead: takes number text as an inverse pair, as the shortest round-trip format is.
- ProjectStore.Store.Save: which rows are written is proved; the SQL text is not modelled.
