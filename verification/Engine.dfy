/** The engine object: project, journal and open transaction, updated in place. */
module GovernedEngine {
  import opened Prelude
  import opened ProjectGraph
  import opened Journal
  import opened Calls
  import opened Context
  import opened HistoryLog
  import opened Staleness
  import opened EngineModel
  import opened EngineLog

  datatype EngineError =
    | Rejected(why: Admission)
    | CommandFailed(message: string)
    | TransactionAlreadyOpen
    | NoOpenTransaction
    | TransactionOpen(action: string)

  /** The objects in `ids` are in `here` what they are in `g`. */
  ghost predicate AsIn(here: Graph, g: Graph, ids: seq<Id>) {
    forall k :: k in ids ==> k in g.objects && k in here.objects && here.objects[k] == g.objects[k]
  }

  lemma StillAsIn(here: Graph, next: Graph, g: Graph, ids: seq<Id>)
    requires ids != [] && Increasing(ids) && AsIn(here, g, ids)
    requires forall k :: k in here.objects && k != ids[0] ==> k in next.objects && next.objects[k] == here.objects[k]
    ensures AsIn(next, g, ids[1..])
  {
    forall k | k in ids[1..]
      ensures k in ids && k != ids[0]
    {
      var j :| 0 <= j < |ids[1..]| && ids[1..][j] == k;
      assert ids[j + 1] == k;
    }
  }

  lemma Joined(a: seq<StateOp>, b: seq<StateOp>, c: seq<StateOp>)
    ensures a + b + c == a + (b + c)
  {
  }

  class Engine {
    const project: Project
    const history: History
    var openTxn: Transaction?
    var dirty: bool

    ghost function Repr(): set<object>
      reads this
    {
      {this, project, history} + (if openTxn == null then {} else {openTxn})
    }

    ghost predicate Valid()
      reads Repr()
    {
      history.Valid()
    }

    function State(): EngineState
      reads this, project, history, openTxn
    {
      EngineState(project.State(), history.records, history.cursor,
                  if openTxn == null then None else Some(openTxn.State()), dirty)
    }

    constructor (id: Id, name: string, now: int)
      ensures Valid() && fresh(Repr())
      ensures State() == Start(Graph(id, PROJECT_SCHEMA_VERSION, now, name, map[], map[], map[]))
    {
      project := new Project(id, name, now);
      history := new History();
      openTxn, dirty := null, false;
    }

    /** An engine over a project and journal read back from a file. */
    constructor Open(g: Graph, records: seq<TxnRecord>, cursor: nat)
      requires cursor <= |records|
      ensures Valid() && fresh(Repr())
      ensures State() == EngineState(g, records, cursor, None, false)
    {
      project := new Project.FromGraph(g);
      history := new History.FromRecords(records, cursor);
      openTxn, dirty := null, false;
    }

    // ----- command execution -------------------------------------------------

    method Execute(a: Attempt) returns (r: Result<Json, EngineError>)
      requires Valid() && Sound(project.State()) && LegalCalls(project.State(), a.actor, a.calls)
      modifies Repr()
      ensures Valid() && fresh(Repr() - old(Repr()))
      ensures State() == DoExecute(old(State()), a)
      ensures a.admission != Admitted ==> r == Err(Rejected(a.admission))
      ensures a.admission == Admitted ==>
        r == if a.answer.Ok? then Ok(a.answer.value) else Err(CommandFailed(a.answer.error))
      ensures OnFile(old(State()), State(), a)
    {
      ExecuteIsOnFile(State(), a);
      if a.admission != Admitted {
        return Err(Rejected(a.admission));
      }
      var auto := openTxn == null;
      if auto {
        openTxn := new Transaction(a.txnId, a.actor, a.command, a.now);
      }
      Perform(a);
      match a.answer {
        case Ok(output) =>
          if auto {
            var _ := CommitTransaction(a.now);
          }
          return Ok(output);
        case Err(error) =>
          if auto {
            var _ := RollbackTransaction();
          }
          return Err(CommandFailed(error));
      }
    }

    /** The command at work in the open transaction. */
    method Perform(a: Attempt)
      requires Valid() && openTxn != null && Sound(project.State()) && LegalCalls(project.State(), a.actor, a.calls)
      modifies project, openTxn
      ensures var ops := CallsOps(old(project.State()), a.actor, a.calls);
              var handled := Forward(old(project.State()), ops);
              var marks := MarkOps(a.command, handled, ops, a.actor, a.now);
              if a.answer.Ok? then
                && project.State() == Forward(handled, marks)
                && openTxn.ops == old(openTxn.ops) + ops + marks
                && openTxn.commands == old(openTxn.commands) + [Succeeded(a, a.answer.value)]
              else
                && project.State() == Backward(handled, ops)
                && openTxn.ops == old(openTxn.ops)
                && openTxn.commands == old(openTxn.commands) + [Failed(a, a.answer.error)]
    {
      var opsBefore := |openTxn.ops|;
      ghost var g, before := project.State(), openTxn.ops;
      ghost var ops := CallsOps(g, a.actor, a.calls);
      var ctx := new CommandContext(project, openTxn, a.actor);
      RunCalls(ctx, a.calls);
      assert openTxn.ops[opsBefore..] == ops && openTxn.ops[..opsBefore] == before;
      match a.answer {
        case Ok(output) =>
          CallsTrail(g, a.actor, a.calls);
          TrailEndsSound(g, ops);
          Accept(a, output, opsBefore);
        case Err(error) =>
          Refuse(a, error, opsBefore);
      }
    }

    /** The handler succeeded: mark what it invalidated, then record the command. */
    method Accept(a: Attempt, output: Json, opsBefore: nat)
      requires openTxn != null && opsBefore <= |openTxn.ops| && Sound(project.State())
      modifies project, openTxn
      ensures var marks := MarkOps(a.command, old(project.State()), old(openTxn.ops[opsBefore..]), a.actor, a.now);
              && project.State() == Forward(old(project.State()), marks)
              && openTxn.ops == old(openTxn.ops) + marks
      ensures openTxn.commands == old(openTxn.commands) + [Succeeded(a, output)]
    {
      MarkStaleDependents(a.command, a.actor, a.now, opsBefore);
      openTxn.commands := openTxn.commands + [Succeeded(a, output)];
    }

    /** The handler failed: cut out what it recorded and take it back, keep the attempt on file. */
    method Refuse(a: Attempt, error: string, opsBefore: nat)
      requires openTxn != null && opsBefore <= |openTxn.ops|
      modifies project, openTxn
      ensures project.State() == Backward(old(project.State()), old(openTxn.ops[opsBefore..]))
      ensures openTxn.ops == old(openTxn.ops[..opsBefore])
      ensures openTxn.commands == old(openTxn.commands) + [Failed(a, error)]
    {
      var partial := openTxn.ops[opsBefore..];
      openTxn.ops := openTxn.ops[..opsBefore];
      RevertOps(project, partial);
      openTxn.commands := openTxn.commands + [Failed(a, error)];
    }

    /** The handler at work: its helper calls, one after the other. */
    method RunCalls(ctx: CommandContext, calls: seq<Call>)
      requires ctx.Valid() && LegalCalls(ctx.project.State(), ctx.actor, calls)
      modifies ctx.project, ctx.txn, ctx`calls
      ensures ctx.Valid()
      ensures ctx.project.State() == Forward(old(ctx.project.State()), CallsOps(old(ctx.project.State()), ctx.actor, calls))
      ensures ctx.txn.ops == old(ctx.txn.ops) + CallsOps(old(ctx.project.State()), ctx.actor, calls)
      ensures ctx.txn.commands == old(ctx.txn.commands)
      decreases calls
    {
      if calls != [] {
        ghost var g := ctx.project.State();
        ghost var first := CallOps(g, ctx.actor, calls[0]);
        ghost var rest := CallsOps(Forward(g, first), ctx.actor, calls[1..]);
        assert CallsOps(g, ctx.actor, calls) == first + rest;
        ForwardConcat(g, first, rest);
        RunCall(ctx, calls[0]);
        RunCalls(ctx, calls[1..]);
      }
    }

    method RunCall(ctx: CommandContext, call: Call)
      requires ctx.Valid() && LegalCall(ctx.project.State(), ctx.actor, call)
      modifies ctx.project, ctx.txn, ctx`calls
      ensures ctx.Valid()
      ensures ctx.project.State() == Forward(old(ctx.project.State()), CallOps(old(ctx.project.State()), ctx.actor, call))
      ensures ctx.txn.ops == old(ctx.txn.ops) + CallOps(old(ctx.project.State()), ctx.actor, call)
      ensures ctx.txn.commands == old(ctx.txn.commands)
      decreases call
    {
      match call {
        case InsertObject(obj) => var _ := ctx.InsertObject(obj);
        case UpdateObject(id, edited, now) => var _ := ctx.UpdateObject(id, _ => edited, now);
        case RemoveObject(id, order) => var _ := ctx.RemoveObjectInOrder(id, order);
        case PutRelation(rel) => var _ := ctx.PutRelation(rel);
        case RemoveRelation(rid) => var _ := ctx.RemoveRelation(rid);
        case Rename(name) => ctx.Rename(name);
        case SetMeta(key, value) => ctx.SetMeta(key, value);
        case RunSub(inner) => RunCalls(ctx, inner);
      }
    }

    /** Flip the verdicts this command's ops have invalidated, as ops of the same transaction. */
    method MarkStaleDependents(command: string, actor: string, now: int, opsBefore: nat)
      requires openTxn != null && opsBefore <= |openTxn.ops| && Sound(project.State())
      modifies project, openTxn
      ensures var marks := MarkOps(command, old(project.State()), old(openTxn.ops[opsBefore..]), actor, now);
              && project.State() == Forward(old(project.State()), marks)
              && openTxn.ops == old(openTxn.ops) + marks
      ensures openTxn.commands == old(openTxn.commands)
    {
      if WritesStatus(command) {
        return;
      }
      ghost var g := project.State();
      var touched := TouchedBy(openTxn.ops[opsBefore..]);
      var ids := Sorted(ToMark(project.State(), touched));
      var ctx := new CommandContext(project, openTxn, actor);
      MarkCallsTrail(g, ToMark(g, touched), actor, now);
      MarkEach(ctx, g, ids, now);
    }

    /** The marking loop, over ids in ascending order. */
    method MarkEach(ctx: CommandContext, ghost g: Graph, ids: seq<Id>, now: int)
      requires ctx.Valid() && ctx.project.State() == g && Sound(g)
      requires Increasing(ids) && forall k :: k in ids ==> k in g.objects
      modifies ctx.project, ctx.txn, ctx`calls
      ensures ctx.project.State() == Forward(g, CallsOps(g, ctx.actor, MarkCalls(g, ids, now)))
      ensures ctx.txn.ops == old(ctx.txn.ops) + CallsOps(g, ctx.actor, MarkCalls(g, ids, now))
      ensures ctx.txn.commands == old(ctx.txn.commands)
    {
      ghost var ops := CallsOps(g, ctx.actor, MarkCalls(g, ids, now));
      ghost var end, later := Forward(g, ops), ops;
      var i := 0;
      assert ids[0..] == ids;
      while i < |ids|
        invariant 0 <= i <= |ids| && ctx.Valid()
        invariant AsIn(ctx.project.State(), g, ids[i..])
        invariant later == CallsOps(ctx.project.State(), ctx.actor, MarkCalls(g, ids[i..], now))
        invariant Forward(ctx.project.State(), later) == end && ctx.txn.ops + later == old(ctx.txn.ops) + ops
        invariant ctx.txn.commands == old(ctx.txn.commands)
      {
        later := MarkNext(ctx, g, ids[i], ids[i..], now, later);
        assert ids[i..][1..] == ids[i + 1..];
        i := i + 1;
      }
      assert ids[i..] == [];
    }

    /** One turn of that loop; `later` is what the turns still to come record. */
    method MarkNext(ctx: CommandContext, ghost g: Graph, id: Id, ghost ids: seq<Id>, now: int, ghost ops: seq<StateOp>)
      returns (ghost later: seq<StateOp>)
      requires ctx.Valid() && ids != [] && ids[0] == id && Increasing(ids) && Sound(g)
      requires AsIn(ctx.project.State(), g, ids)
      requires ops == CallsOps(ctx.project.State(), ctx.actor, MarkCalls(g, ids, now))
      modifies ctx.project, ctx.txn, ctx`calls
      ensures ctx.Valid() && AsIn(ctx.project.State(), g, ids[1..])
      ensures later == CallsOps(ctx.project.State(), ctx.actor, MarkCalls(g, ids[1..], now))
      ensures Forward(ctx.project.State(), later) == Forward(old(ctx.project.State()), ops)
      ensures ctx.txn.ops + later == old(ctx.txn.ops) + ops
      ensures ctx.txn.commands == old(ctx.txn.commands)
    {
      ghost var here := ctx.project.State();
      ghost var first := CallOps(here, ctx.actor, Call.UpdateObject(id, MarkStale(g.objects[id]), now));
      MarkStep(g, here, ids, ctx.actor, now);
      var _ := ctx.UpdateObject(id, MarkStale, now);
      later := CallsOps(ctx.project.State(), ctx.actor, MarkCalls(g, ids[1..], now));
      assert ctx.project.State() == Forward(here, first) && ops == first + later;
      Joined(old(ctx.txn.ops), first, later);
      StillAsIn(here, ctx.project.State(), g, ids);
    }

    // ----- transactions ------------------------------------------------------

    method BeginTransaction(id: Id, actor: string, title: string, now: int) returns (r: Result<Id, EngineError>)
      requires Valid()
      modifies this
      ensures Valid() && fresh(Repr() - old(Repr()))
      ensures State() == Step(old(State()), Begin(id, actor, title, now))
      ensures r == if old(openTxn) != null then Err(TransactionAlreadyOpen) else Ok(id)
    {
      if openTxn != null {
        return Err(TransactionAlreadyOpen);
      }
      openTxn := new Transaction(id, actor, title, now);
      return Ok(id);
    }

    method CommitTransaction(now: int) returns (r: Result<Id, EngineError>)
      requires Valid()
      modifies this, history
      ensures Valid() && Repr() <= old(Repr())
      ensures State() == DoCommit(old(State()), now)
      ensures r == if old(openTxn) == null then Err(NoOpenTransaction) else Ok(old(openTxn).id)
    {
      if openTxn == null {
        return Err(NoOpenTransaction);
      }
      var txn := openTxn;
      openTxn := null;
      if txn.ops != [] || txn.commands != [] {
        history.Push(Finish(txn.State(), |history.records|, now));
        dirty := true;
      }
      return Ok(txn.id);
    }

    method RollbackTransaction() returns (r: Result<(), EngineError>)
      requires Valid()
      modifies this, project
      ensures Valid() && Repr() <= old(Repr())
      ensures State() == DoRollback(old(State()))
      ensures r == if old(openTxn) == null then Err(NoOpenTransaction) else Ok(())
    {
      if openTxn == null {
        return Err(NoOpenTransaction);
      }
      var txn := openTxn;
      openTxn := null;
      txn.Revert(project);
      return Ok(());
    }

    // ----- undo / redo -------------------------------------------------------

    method UndoLast() returns (r: Result<Option<Id>, EngineError>)
      requires Valid()
      modifies this, history, project
      ensures Valid() && Repr() == old(Repr())
      ensures State() == DoUndo(old(State()))
      ensures r == if openTxn != null then Err(TransactionOpen("undo"))
                   else if old(history.cursor) == 0 then Ok(None)
                   else Ok(Some(old(history.records)[history.cursor].id))
    {
      if openTxn != null {
        return Err(TransactionOpen("undo"));
      }
      var id := history.Undo(project);
      if id.Some? {
        dirty := true;
      }
      return Ok(id);
    }

    method RedoNext() returns (r: Result<Option<Id>, EngineError>)
      requires Valid()
      modifies this, history, project
      ensures Valid() && Repr() == old(Repr())
      ensures State() == DoRedo(old(State()))
      ensures r == if openTxn != null then Err(TransactionOpen("redo"))
                   else if old(history.cursor) == |old(history.records)| then Ok(None)
                   else Ok(Some(old(history.records)[old(history.cursor)].id))
    {
      if openTxn != null {
        return Err(TransactionOpen("redo"));
      }
      var id := history.Redo(project);
      if id.Some? {
        dirty := true;
      }
      return Ok(id);
    }
  }
}
