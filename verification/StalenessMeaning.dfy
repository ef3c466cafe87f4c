/** What marking does, told from the graph alone: which requirements are marked and what a mark is. */
module StalenessMeaning {
  import opened Prelude
  import opened ProjectGraph
  import opened Journal
  import opened Text
  import opened Staleness
  import opened Calls
  import opened EngineModel

  /** The op writes this object, or deletes it. */
  predicate Concerns(op: StateOp, id: Id) {
    op.SetObject? && if op.objAfter.Some? then op.objAfter.value.id == id else op.objBefore.Some? && op.objBefore.value.id == id
  }

  ghost predicate Concerned(ops: seq<StateOp>, id: Id) {
    exists j :: 0 <= j < |ops| && Concerns(ops[j], id)
  }

  /** It shows a verdict that something in the project could have falsified. */
  predicate ShowsVerdict(o: Object) {
    && "core:requirement-status" in o.components
    && var data := o.components["core:requirement-status"].data;
       data.Obj? && "status" in data.fields && (data.fields["status"] == Str("pass") || data.fields["status"] == Str("fail"))
  }

  /** An edge that says `id` depends on something the ops write or delete. */
  ghost predicate DependsOnConcerned(g: Graph, ops: seq<StateOp>, id: Id) {
    exists k :: k in g.relations && EdgeInto(g.relations[k], ops, id)
  }

  ghost predicate EdgeInto(r: Relation, ops: seq<StateOp>, id: Id) {
    r.typeId == "core:depends-on" && r.from == id && Concerned(ops, r.to)
  }

  /** The text of the verdict so far, if it is text. */
  function VerdictBefore(fields: map<string, Json>): string {
    if "verdict" in fields && fields["verdict"].Str? then fields["verdict"].s else ""
  }

  /** The status is stale now, the verdict ends in a note that says so, and all else is the same. */
  ghost predicate TurnsStale(was: Component, got: Component) {
    && was.data.Obj? && got.data.Obj? && got.(data := was.data) == was
    && "status" in got.data.fields && got.data.fields["status"] == Str("stale")
    && "verdict" in got.data.fields && got.data.fields["verdict"].Str?
    && TrimmedTo(VerdictBefore(was.data.fields) + " [stale: dependency changed]", got.data.fields["verdict"].s)
    && got.data.fields - {"status", "verdict"} == was.data.fields - {"status", "verdict"}
  }

  /** `b` is `a` marked: status and verdict say so, the update is recorded, and nothing else is different. */
  ghost predicate IsMarked(a: Object, b: Object, actor: string, now: int) {
    && "core:requirement-status" in a.components && "core:requirement-status" in b.components
    && TurnsStale(a.components["core:requirement-status"], b.components["core:requirement-status"])
    && b.components - {"core:requirement-status"} == a.components - {"core:requirement-status"}
    && b.(components := a.components, meta := a.meta) == a
    && b.meta == a.meta.(updatedAt := now, updatedBy := actor, revision := a.meta.revision + 1)
  }

  lemma TouchedIsConcerned(ops: seq<StateOp>, id: Id)
    ensures id in TouchedBy(ops) <==> Concerned(ops, id)
  {
    if Concerned(ops, id) {
      var j :| 0 <= j < |ops| && Concerns(ops[j], id);
      assert ops[j] in ops && OpObject(ops[j]) == Some(id);
    }
    if id in TouchedBy(ops) {
      var op :| op in ops && OpObject(op) == Some(id);
      var j :| 0 <= j < |ops| && ops[j] == op;
      assert Concerns(ops[j], id);
    }
  }

  lemma Chosen(g: Graph, ops: seq<StateOp>, id: Id)
    requires id in g.objects
    ensures id in ToMark(g, TouchedBy(ops)) <==>
      ShowsVerdict(g.objects[id]) && (Concerned(ops, id) || DependsOnConcerned(g, ops, id))
  {
    TouchedIsConcerned(ops, id);
    if DependsOnConcerned(g, ops, id) {
      var k :| k in g.relations && EdgeInto(g.relations[k], ops, id);
      TouchedIsConcerned(ops, g.relations[k].to);
      assert DependsInto(g.relations[k], TouchedBy(ops));
    }
    var sources := set k | k in g.relations && DependsInto(g.relations[k], TouchedBy(ops)) :: g.relations[k].from;
    if id in sources {
      var k :| k in g.relations && DependsInto(g.relations[k], TouchedBy(ops)) && g.relations[k].from == id;
      TouchedIsConcerned(ops, g.relations[k].to);
      assert EdgeInto(g.relations[k], ops, id);
    }
  }

  lemma MarkIsMark(o: Object, actor: string, now: int)
    requires ShowsVerdict(o)
    ensures IsMarked(o, MarkStale(o).Touch(actor, now), actor, now)
  {
    var fields := o.components["core:requirement-status"].data.fields;
    TrimMeans(VerdictBefore(fields) + " [stale: dependency changed]");
    var b := MarkStale(o).Touch(actor, now);
    assert b.components["core:requirement-status"].data.fields - {"status", "verdict"} == fields - {"status", "verdict"};
    assert b.components - {"core:requirement-status"} == o.components - {"core:requirement-status"};
  }

  /**
   What a successful command does to the requirements it has not written itself. One that
   shows "pass" or "fail" and that the command wrote or deleted, or that depends on something
   it wrote or deleted, is marked; every other object is left as it is. A command that writes
   verdicts itself marks nothing.
   */
  lemma MarkingMeans(command: string, g: Graph, ops: seq<StateOp>, actor: string, now: int, id: Id)
    requires Sound(g) && id in g.objects
    ensures var after := Forward(g, MarkOps(command, g, ops, actor, now));
            && id in after.objects
            && if command != "requirement.evaluate" && command != "requirement.set_status" && ShowsVerdict(g.objects[id])
                  && (Concerned(ops, id) || DependsOnConcerned(g, ops, id))
               then IsMarked(g.objects[id], after.objects[id], actor, now)
               else after.objects[id] == g.objects[id]
  {
    MarkOpsEffect(command, g, ops, actor, now);
    Chosen(g, ops, id);
    if ShowsVerdict(g.objects[id]) {
      MarkIsMark(g.objects[id], actor, now);
    }
  }

  /** The same of one step of the engine, for what the handler's calls have recorded. */
  lemma CommandMarks(st: EngineState, a: Attempt, id: Id)
    requires st.cursor <= |st.records| && Sound(st.graph) && LegalCalls(st.graph, a.actor, a.calls)
    requires a.admission == Admitted && a.answer.Ok?
    ensures var ops := CallsOps(st.graph, a.actor, a.calls);
            var handled, after := Forward(st.graph, ops), Step(st, Execute(a)).graph;
            && after.objects.Keys == handled.objects.Keys && after.relations == handled.relations
            && (id in handled.objects ==>
                  if a.command != "requirement.evaluate" && a.command != "requirement.set_status" && ShowsVerdict(handled.objects[id])
                    && (Concerned(ops, id) || DependsOnConcerned(handled, ops, id))
                  then IsMarked(handled.objects[id], after.objects[id], a.actor, a.now)
                  else after.objects[id] == handled.objects[id])
  {
    hide IsMarked, ShowsVerdict, Concerned, DependsOnConcerned, MarkOps, DoExecute;
    var ops := CallsOps(st.graph, a.actor, a.calls);
    CallsTrail(st.graph, a.actor, a.calls);
    TrailEndsSound(st.graph, ops);
    ExecuteLeaves(st, a);
    LeftKeeps(st.graph, a.command, a.actor, a.calls, a.now);
    if id in Forward(st.graph, ops).objects {
      MarkingMeans(a.command, Forward(st.graph, ops), ops, a.actor, a.now, id);
    }
  }
}
