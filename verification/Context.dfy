/**
 The open transaction and the mutable view of the world a command works through. The
 context keeps, as ghost state, the list of helper calls made so far; `Valid` ties the
 live project and the recorded ops to that list, so every handler written against the
 helpers is one of the executions `Calls` speaks about.
 */
module Context {
  import opened Prelude
  import opened ProjectGraph
  import opened Journal
  import opened Calls

  datatype ContextError =
    | ObjectNotFound(id: Id)
    | RelationNotFound(id: Id)
    | DanglingRelation(id: Id)

  datatype CommandRecord = CommandRecord(
    command: string, actor: string, inputs: Json, ok: bool, output: Json, error: Option<string>)

  /** The value of an open transaction. */
  datatype Txn = Txn(
    id: Id, actor: string, title: string, startedAt: int,
    ops: seq<StateOp>, commands: seq<CommandRecord>)

  class Transaction {
    const id: Id
    const actor: string
    const title: string
    const startedAt: int
    var ops: seq<StateOp>
    var commands: seq<CommandRecord>

    function State(): Txn
      reads this
    {
      Txn(id, actor, title, startedAt, ops, commands)
    }

    constructor (id: Id, actor: string, title: string, now: int)
      ensures State() == Txn(id, actor, title, now, [], [])
    {
      this.id, this.actor, this.title, startedAt := id, actor, title, now;
      ops, commands := [], [];
    }

    /** Take back all ops, last first. */
    method Revert(project: Project)
      modifies project
      ensures project.State() == Backward(old(project.State()), ops)
    {
      RevertOps(project, ops);
    }
  }

  /** The backward loop that rollback, undo and the failure path share. */
  method RevertOps(project: Project, ops: seq<StateOp>)
    modifies project
    ensures project.State() == Backward(old(project.State()), ops)
  {
    var i := |ops|;
    assert ops[..i] == ops;
    while i > 0
      invariant 0 <= i <= |ops|
      invariant Backward(project.State(), ops[..i]) == Backward(old(project.State()), ops)
    {
      i := i - 1;
      assert ops[..i + 1][|ops[..i + 1]| - 1] == ops[i] && ops[..i + 1][..i] == ops[..i];
      project.ApplyOp(ops[i], false);
    }
  }

  /** The forward loop of redo and replay. */
  method ApplyOps(project: Project, ops: seq<StateOp>)
    modifies project
    ensures project.State() == Forward(old(project.State()), ops)
  {
    var i := 0;
    assert ops[0..] == ops;
    while i < |ops|
      invariant 0 <= i <= |ops|
      invariant Forward(project.State(), ops[i..]) == Forward(old(project.State()), ops)
    {
      assert ops[i..][0] == ops[i] && ops[i..][1..] == ops[i + 1..];
      project.ApplyOp(ops[i], true);
      i := i + 1;
    }
    assert ops[i..] == [];
  }

  /** Iterate over a hash set of ids: each element once, in no particular order. */
  method Enumerate(s: set<Id>) returns (order: seq<Id>)
    ensures Distinct(order)
    ensures forall x :: x in order <==> x in s
  {
    order := [];
    var rest := s;
    while rest != {}
      invariant rest <= s
      invariant Distinct(order)
      invariant forall x :: x in order <==> x in s && x !in rest
      decreases rest
    {
      var x :| x in rest;
      order := order + [x];
      rest := rest - {x};
    }
  }

  class CommandContext {
    const project: Project
    const txn: Transaction
    const actor: string
    /** The graph when the command started, and the ops recorded before it. */
    ghost const start: Graph
    ghost const prior: seq<StateOp>
    ghost var calls: seq<Call>

    ghost predicate Valid()
      reads this, project, txn
    {
      && Sound(start)
      && LegalCalls(start, actor, calls)
      && project.State() == Forward(start, CallsOps(start, actor, calls))
      && txn.ops == prior + CallsOps(start, actor, calls)
    }

    /** The graph the handler sees is sound after every single call. */
    lemma ValidIsSound()
      requires Valid()
      ensures Sound(project.State())
    {
      CallsTrail(start, actor, calls);
      TrailEndsSound(start, CallsOps(start, actor, calls));
    }

    constructor (project: Project, txn: Transaction, actor: string)
      requires Sound(project.State())
      ensures this.project == project && this.txn == txn && this.actor == actor
      ensures start == project.State() && prior == txn.ops && calls == []
      ensures Valid()
    {
      this.project, this.txn, this.actor := project, txn, actor;
      start, prior, calls := project.State(), txn.ops, [];
    }

    /** The state after one more call, as every helper leaves it. */
    twostate predicate Made(call: Call)
      reads this, project, txn
    {
      && calls == old(calls) + [call]
      && project.State() == Forward(old(project.State()), CallOps(old(project.State()), actor, call))
      && txn.ops == old(txn.ops) + CallOps(old(project.State()), actor, call)
      && txn.commands == old(txn.commands)
    }

    twostate lemma MadeKeepsValid(call: Call)
      requires old(Valid()) && Made(call)
      requires LegalCall(old(project.State()), actor, call)
      ensures Valid()
    {
      CallsAppend(start, actor, old(calls), call);
      ForwardConcat(start, CallsOps(start, actor, old(calls)), CallOps(old(project.State()), actor, call));
    }

    /**
     Between two valid states of one context everything recorded in between takes the later
     graph back to the earlier one. This is what makes each handler below undoable.
     */
    twostate lemma SinceInverts()
      requires old(Valid()) && Valid() && old(calls) <= calls
      ensures old(txn.ops) <= txn.ops
      ensures Trail(old(project.State()), txn.ops[|old(txn.ops)|..])
      ensures project.State() == Forward(old(project.State()), txn.ops[|old(txn.ops)|..])
      ensures Backward(project.State(), txn.ops[|old(txn.ops)|..]) == old(project.State())
    {
      var before, since := old(calls), calls[|old(calls)|..];
      assert calls == before + since;
      CallsConcat(start, actor, before, since);
      ForwardConcat(start, CallsOps(start, actor, before), CallsOps(old(project.State()), actor, since));
      assert txn.ops[|old(txn.ops)|..] == CallsOps(old(project.State()), actor, since);
      CallsTrail(start, actor, before);
      TrailEndsSound(start, CallsOps(start, actor, before));
      CallsTrail(old(project.State()), actor, since);
      TrailUndo(old(project.State()), CallsOps(old(project.State()), actor, since));
    }

    method Record(op: StateOp)
      modifies project, txn
      ensures project.State() == Apply(old(project.State()), op, true)
      ensures txn.ops == old(txn.ops) + [op] && txn.commands == old(txn.commands)
    {
      project.ApplyOp(op, true);
      txn.ops := txn.ops + [op];
    }

    /** An id that is in use is overwritten; the context stays valid where it was not. */
    method InsertObject(obj: Object) returns (r: Result<Id, ContextError>)
      modifies project, txn, `calls
      ensures old(Valid()) && obj.id !in old(project.objects) ==> Valid()
      ensures Made(Call.InsertObject(obj)) && r == Ok(obj.id)
      ensures project.State() == old(project.State()).(objects := old(project.objects)[obj.id := obj])
    {
      var op := SetObject(None, Some(obj));
      TrailOne(project.State(), op);
      Record(op);
      calls := calls + [Call.InsertObject(obj)];
      if old(Valid()) && obj.id !in old(project.objects) {
        MadeKeepsValid(Call.InsertObject(obj));
      }
      return Ok(obj.id);
    }

    /** What the edit makes of the object is stored under the id it then has. */
    method UpdateObject(id: Id, edit: Object -> Object, now: int) returns (r: Result<(), ContextError>)
      modifies project, txn, `calls
      ensures old(Valid()) && (id in old(project.objects) ==> edit(old(project.objects)[id]).id == id) ==> Valid()
      ensures id in old(project.objects) ==>
        var edited := edit(old(project.objects)[id]);
        && r == Ok(())
        && Made(Call.UpdateObject(id, edited, now))
        && project.State() == old(project.State()).(objects := old(project.objects)[edited.id := edited.Touch(actor, now)])
      ensures id in old(project.objects) ==>
        var edited := edit(old(project.objects)[id]);
        && edited.id in project.objects
        && var stored := project.objects[edited.id];
           && stored == edited.(meta := stored.meta)
           && stored.meta == edited.meta.(updatedAt := now, updatedBy := actor, revision := edited.meta.revision + 1)
      ensures id !in old(project.objects) ==>
        r == Err(ObjectNotFound(id)) && project.State() == old(project.State()) && txn.State() == old(txn.State()) && calls == old(calls)
    {
      if id !in project.objects {
        return Err(ObjectNotFound(id));
      }
      var before := project.objects[id];
      var after := edit(before).Touch(actor, now);
      var op := SetObject(Some(before), Some(after));
      TrailOne(project.State(), op);
      Record(op);
      calls := calls + [Call.UpdateObject(id, edit(before), now)];
      if old(Valid()) && edit(before).id == id {
        MadeKeepsValid(Call.UpdateObject(id, edit(before), now));
      }
      return Ok(());
    }

    /** Remove an object plus every relation touching it, relations first. */
    method RemoveObject(id: Id) returns (r: Result<Object, ContextError>)
      requires Valid()
      modifies project, txn, `calls
      ensures Valid()
      ensures id in old(project.objects) ==>
        r == Ok(old(project.objects)[id]) && project.State() == WithoutObject(old(project.State()), id)
      ensures old(calls) <= calls
      ensures id !in old(project.objects) ==>
        r == Err(ObjectNotFound(id)) && project.State() == old(project.State()) && txn.State() == old(txn.State()) && calls == old(calls)
      ensures txn.commands == old(txn.commands)
    {
      var order := Enumerate(set k | k in project.relations && Touches(project.relations[k], id));
      r := RemoveObjectInOrder(id, order);
    }

    /** The same for one given iteration order of the relation map. */
    method RemoveObjectInOrder(id: Id, order: seq<Id>) returns (r: Result<Object, ContextError>)
      requires Valid() && LegalCall(project.State(), actor, Call.RemoveObject(id, order))
      modifies project, txn, `calls
      ensures Valid()
      ensures id in old(project.objects) ==>
        && r == Ok(old(project.objects)[id]) && Made(Call.RemoveObject(id, order))
        && project.State() == WithoutObject(old(project.State()), id)
      ensures id !in old(project.objects) ==>
        r == Err(ObjectNotFound(id)) && project.State() == old(project.State()) && txn.State() == old(txn.State()) && calls == old(calls)
    {
      if id !in project.objects {
        return Err(ObjectNotFound(id));
      }
      var obj := project.objects[id];
      ghost var g := project.State();
      ValidIsSound();
      RemoveRelationsInOrder(order);
      var op := SetObject(Some(obj), None);
      Record(op);
      RemoveOps(g, id, order);
      calls := calls + [Call.RemoveObject(id, order)];
      MadeKeepsValid(Call.RemoveObject(id, order));
      return Ok(obj);
    }

    method RemoveRelationsInOrder(order: seq<Id>)
      requires Distinct(order) && forall k :: k in order ==> k in project.relations
      requires forall k :: k in project.relations ==> project.relations[k].id == k
      modifies project, txn
      ensures project.State() == Forward(old(project.State()), RelationOps(old(project.State()), order))
      ensures txn.ops == old(txn.ops) + RelationOps(old(project.State()), order)
      ensures txn.commands == old(txn.commands)
    {
      var i := 0;
      ghost var g := project.State();
      assert order[0..] == order;
      while i < |order|
        invariant 0 <= i <= |order|
        invariant forall k :: i <= k < |order| ==> order[k] in project.relations
        invariant forall k :: k in project.relations ==> project.relations[k].id == k
        invariant Forward(project.State(), RelationOps(project.State(), order[i..])) == Forward(g, RelationOps(g, order))
        invariant txn.ops + RelationOps(project.State(), order[i..]) == old(txn.ops) + RelationOps(g, order)
        invariant txn.commands == old(txn.commands)
      {
        RelationOpsStep(project.State(), order[i..]);
        assert order[i..][1..] == order[i + 1..];
        Record(SetRelation(Some(project.relations[order[i]]), None));
        i := i + 1;
      }
      assert order[i..] == [];
    }

    method PutRelation(rel: Relation) returns (r: Result<Id, ContextError>)
      modifies project, txn, `calls
      ensures old(Valid()) && rel.id !in old(project.relations) ==> Valid()
      ensures rel.from in old(project.objects) && rel.to in old(project.objects) ==>
        && r == Ok(rel.id) && Made(Call.PutRelation(rel))
        && project.State() == old(project.State()).(relations := old(project.relations)[rel.id := rel])
      ensures !(rel.from in old(project.objects) && rel.to in old(project.objects)) ==>
        r == Err(DanglingRelation(rel.id)) && project.State() == old(project.State()) && txn.State() == old(txn.State()) && calls == old(calls)
    {
      if rel.from !in project.objects || rel.to !in project.objects {
        return Err(DanglingRelation(rel.id));
      }
      var op := SetRelation(None, Some(rel));
      TrailOne(project.State(), op);
      Record(op);
      calls := calls + [Call.PutRelation(rel)];
      if old(Valid()) && rel.id !in old(project.relations) {
        MadeKeepsValid(Call.PutRelation(rel));
      }
      return Ok(rel.id);
    }

    method RemoveRelation(rid: Id) returns (r: Result<(), ContextError>)
      requires Valid()
      modifies project, txn, `calls
      ensures Valid()
      ensures rid in old(project.relations) ==>
        && r == Ok(()) && Made(Call.RemoveRelation(rid))
        && project.State() == old(project.State()).(relations := old(project.relations) - {rid})
      ensures rid !in old(project.relations) ==>
        r == Err(RelationNotFound(rid)) && project.State() == old(project.State()) && txn.State() == old(txn.State()) && calls == old(calls)
    {
      if rid !in project.relations {
        return Err(RelationNotFound(rid));
      }
      ValidIsSound();
      var op := SetRelation(Some(project.relations[rid]), None);
      TrailOne(project.State(), op);
      Record(op);
      calls := calls + [Call.RemoveRelation(rid)];
      MadeKeepsValid(Call.RemoveRelation(rid));
      return Ok(());
    }

    /** `project.rename`: the name is written directly, the op is recorded beside it. */
    method Rename(name: string)
      requires Valid()
      modifies project, txn, `calls
      ensures Valid() && Made(Call.Rename(name))
      ensures project.State() == old(project.State()).(name := name)
    {
      var op := SetProjectMeta(PROJECT_NAME_META_KEY, Some(Str(project.name)), Some(Str(name)));
      TrailOne(project.State(), op);
      project.name := name;
      txn.ops := txn.ops + [op];
      calls := calls + [Call.Rename(name)];
      MadeKeepsValid(Call.Rename(name));
    }

    /** `project.set_meta`: under the reserved key the inverse must carry the old name. */
    method SetMeta(key: string, value: Json)
      requires Valid()
      modifies project, txn, `calls
      ensures Valid() && Made(Call.SetMeta(key, value))
      ensures key != PROJECT_NAME_META_KEY ==>
        project.State() == old(project.State()).(settings := old(project.settings)[key := value])
      ensures key == PROJECT_NAME_META_KEY ==>
        project.State() == old(project.State()).(name := if value.Str? then value.s else old(project.name))
    {
      var before :=
        if key == PROJECT_NAME_META_KEY then Some(Str(project.name))
        else if key in project.settings then Some(project.settings[key])
        else None;
      var op := SetProjectMeta(key, before, Some(value));
      TrailOne(project.State(), op);
      Record(op);
      calls := calls + [Call.SetMeta(key, value)];
      MadeKeepsValid(Call.SetMeta(key, value));
    }
  }
}
