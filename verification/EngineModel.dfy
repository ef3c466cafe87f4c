/**
 The governed state machine as a function on values: one step per public operation of the
 engine, and the invariant every run keeps.
 */
module EngineModel {
  import opened Prelude
  import opened ProjectGraph
  import opened Journal
  import opened Calls
  import opened Context
  import opened HistoryLog
  import opened Staleness

  datatype EngineState = EngineState(
    graph: Graph, records: seq<TxnRecord>, cursor: nat, open: Option<Txn>, dirty: bool)

  /** Why a command can be turned away before its handler runs. */
  datatype Admission = Admitted | UnknownCommand | PermissionDenied | InvalidInput

  /**
   One command as the engine sees it: who asked for what, whether it is let through, and
   what its handler then does to the graph it finds and answers.
   */
  datatype Attempt = Attempt(
    command: string, actor: string, inputs: Json, admission: Admission,
    calls: seq<Call>, answer: Result<Json, string>, txnId: Id, now: int)

  datatype Event =
    | Execute(attempt: Attempt)
    | Begin(id: Id, actor: string, title: string, now: int)
    | Commit(now: int)
    | Rollback
    | Undo
    | Redo

  // ----- steps -------------------------------------------------------------

  function Succeeded(a: Attempt, output: Json): CommandRecord {
    CommandRecord(a.command, a.actor, a.inputs, true, output, None)
  }

  function Failed(a: Attempt, error: string): CommandRecord {
    CommandRecord(a.command, a.actor, a.inputs, false, Null, Some(error))
  }

  /** The transaction a command works in: the caller's, or one of its own. */
  function WorkingTxn(st: EngineState, a: Attempt): Txn {
    if st.open.Some? then st.open.value else Txn(a.txnId, a.actor, a.command, a.now, [], [])
  }

  function DoCommit(st: EngineState, now: int): EngineState
    requires st.cursor <= |st.records|
  {
    if st.open.None? then st
    else if st.open.value.ops == [] && st.open.value.commands == [] then st.(open := None)
    else st.(records := Pushed(st.records, st.cursor, Finish(st.open.value, |st.records|, now)),
             cursor := st.cursor + 1, open := None, dirty := true)
  }

  function DoRollback(st: EngineState): EngineState {
    if st.open.None? then st
    else st.(graph := Backward(st.graph, st.open.value.ops), open := None)
  }

  function DoExecute(st: EngineState, a: Attempt): EngineState
    requires st.cursor <= |st.records|
  {
    if a.admission != Admitted then st else
      var auto := st.open.None?;
      var t := WorkingTxn(st, a);
      var ops := CallsOps(st.graph, a.actor, a.calls);
      var handled := Forward(st.graph, ops);
      match a.answer
      case Ok(output) =>
        var marks := MarkOps(a.command, handled, ops, a.actor, a.now);
        var t' := t.(ops := t.ops + ops + marks, commands := t.commands + [Succeeded(a, output)]);
        var st' := st.(graph := Forward(handled, marks), open := Some(t'));
        if auto then DoCommit(st', a.now) else st'
      case Err(error) =>
        var t' := t.(commands := t.commands + [Failed(a, error)]);
        var st' := st.(graph := Backward(handled, ops), open := Some(t'));
        if auto then DoRollback(st') else st'
  }

  function DoUndo(st: EngineState): EngineState
    requires st.cursor <= |st.records|
  {
    if st.open.Some? || st.cursor == 0 then st else
      var k := st.cursor - 1;
      st.(graph := Backward(st.graph, st.records[k].ops),
          records := st.records[k := st.records[k].(undone := true)], cursor := k, dirty := true)
  }

  function DoRedo(st: EngineState): EngineState
    requires st.cursor <= |st.records|
  {
    if st.open.Some? || st.cursor == |st.records| then st else
      var k := st.cursor;
      st.(graph := Forward(st.graph, st.records[k].ops),
          records := st.records[k := st.records[k].(undone := false)], cursor := k + 1, dirty := true)
  }

  function Step(st: EngineState, ev: Event): (r: EngineState)
    requires st.cursor <= |st.records|
    ensures r.cursor <= |r.records|
  {
    match ev
    case Execute(a) => DoExecute(st, a)
    case Begin(id, actor, title, now) =>
      if st.open.Some? then st else st.(open := Some(Txn(id, actor, title, now, [], [])))
    case Commit(now) => DoCommit(st, now)
    case Rollback => DoRollback(st)
    case Undo => DoUndo(st)
    case Redo => DoRedo(st)
  }

  // ----- one command, seen from outside -------------------------------------

  /** The graph a successful command leaves, marks included. */
  function Left(g: Graph, command: string, actor: string, calls: seq<Call>, now: int): Graph {
    var ops := CallsOps(g, actor, calls);
    Forward(Forward(g, ops), MarkOps(command, Forward(g, ops), ops, actor, now))
  }

  /** It is the live graph after the engine's step. */
  lemma ExecuteLeaves(st: EngineState, a: Attempt)
    requires st.cursor <= |st.records| && a.admission == Admitted && a.answer.Ok?
    ensures Step(st, Execute(a)).graph == Left(st.graph, a.command, a.actor, a.calls, a.now)
  {
  }

  lemma LeftKeeps(g: Graph, command: string, actor: string, calls: seq<Call>, now: int)
    requires Sound(g) && LegalCalls(g, actor, calls)
    ensures var handled, after := Forward(g, CallsOps(g, actor, calls)), Left(g, command, actor, calls, now);
            after.objects.Keys == handled.objects.Keys && after.relations == handled.relations && after.settings == handled.settings
  {
    var ops := CallsOps(g, actor, calls);
    CallsTrail(g, actor, calls);
    TrailEndsSound(g, ops);
    MarkOpsEffect(command, Forward(g, ops), ops, actor, now);
  }

  /** A command of one call that is let through and succeeds. */
  function Doing(command: string, call: Call, actor: string, now: int): Event {
    Execute(Attempt(command, actor, Null, Admitted, [call], Ok(Null), 0, now))
  }

  // ----- the invariant -----------------------------------------------------

  /** The graph the applied part of the journal leads to. */
  function Base(genesis: Graph, st: EngineState): Graph
    requires st.cursor <= |st.records|
  {
    Forward(genesis, AllOps(st.records[..st.cursor]))
  }

  function Pending(st: EngineState): seq<StateOp> {
    if st.open.Some? then st.open.value.ops else []
  }

  /**
   The live graph is the journal prefix applied to the initial graph, followed by the open
   transaction's ops; the whole journal, redo tail included, is a trail, and so is the
   open transaction.
   */
  ghost predicate Inv(genesis: Graph, st: EngineState) {
    && WellNumbered(st.records, st.cursor)
    && Trail(genesis, AllOps(st.records))
    && Trail(Base(genesis, st), Pending(st))
    && st.graph == Forward(Base(genesis, st), Pending(st))
  }

  /** What the surroundings owe one event: handlers run in a world of fresh ids. */
  ghost predicate Legal(st: EngineState, ev: Event) {
    ev.Execute? ==> LegalCalls(st.graph, ev.attempt.actor, ev.attempt.calls)
  }

  function Start(genesis: Graph): EngineState {
    EngineState(genesis, [], 0, None, false)
  }

  lemma StartInv(genesis: Graph)
    requires Sound(genesis)
    ensures Inv(genesis, Start(genesis))
  {
  }

  // ----- preservation ------------------------------------------------------

  lemma GraphSound(genesis: Graph, st: EngineState)
    requires Inv(genesis, st)
    ensures Sound(st.graph)
  {
    TrailEndsSound(Base(genesis, st), Pending(st));
  }

  /** Every journal prefix is a trail and so is what follows it. */
  lemma JournalSplit(genesis: Graph, records: seq<TxnRecord>, k: nat)
    requires Trail(genesis, AllOps(records)) && k <= |records|
    ensures Trail(genesis, AllOps(records[..k]))
    ensures Trail(Forward(genesis, AllOps(records[..k])), AllOps(records[k..]))
  {
    assert records == records[..k] + records[k..];
    AllOpsConcat(records[..k], records[k..]);
    TrailConcat(genesis, AllOps(records[..k]), AllOps(records[k..]));
  }

  lemma PushedRecords(genesis: Graph, records: seq<TxnRecord>, cursor: nat, rec: TxnRecord)
    requires WellNumbered(records, cursor) && !rec.undone && Trail(genesis, AllOps(records))
    requires Trail(Forward(genesis, AllOps(records[..cursor])), rec.ops)
    ensures var pushed := Pushed(records, cursor, rec);
            && WellNumbered(pushed, cursor + 1) && pushed[..cursor + 1] == pushed
            && AllOps(pushed) == AllOps(records[..cursor]) + rec.ops
            && Trail(genesis, AllOps(pushed))
            && Forward(genesis, AllOps(pushed)) == Forward(Forward(genesis, AllOps(records[..cursor])), rec.ops)
  {
    var pushed, done := Pushed(records, cursor, rec), AllOps(records[..cursor]);
    assert pushed[..cursor] == records[..cursor] && pushed[..cursor + 1] == pushed;
    AllOpsOne(pushed, cursor);
    JournalSplit(genesis, records, cursor);
    TrailConcat(genesis, done, rec.ops);
    ForwardConcat(genesis, done, rec.ops);
  }

  lemma CommitKeepsInv(genesis: Graph, st: EngineState, now: int)
    requires Inv(genesis, st)
    ensures Inv(genesis, DoCommit(st, now))
  {
    var st' := DoCommit(st, now);
    if st.open.Some? {
      TrailEndsSound(Base(genesis, st), Pending(st));
      Idle(genesis, st');
      if st'.cursor != st.cursor {
        PushedRecords(genesis, st.records, st.cursor, Finish(st.open.value, |st.records|, now));
      } else {
        assert Forward(Base(genesis, st), []) == Base(genesis, st);
      }
    }
  }

  lemma RollbackKeepsInv(genesis: Graph, st: EngineState)
    requires Inv(genesis, st)
    ensures Inv(genesis, DoRollback(st))
    ensures DoRollback(st).graph == Base(genesis, st)
  {
    TrailUndo(Base(genesis, st), Pending(st));
    TrailEndsSound(Base(genesis, st), Pending(st));
  }

  /** What a handler recorded and then left half done is taken back exactly. */
  lemma FailureReverts(genesis: Graph, st: EngineState, a: Attempt)
    requires Inv(genesis, st) && Legal(st, Execute(a))
    ensures Backward(Forward(st.graph, CallsOps(st.graph, a.actor, a.calls)), CallsOps(st.graph, a.actor, a.calls)) == st.graph
  {
    GraphSound(genesis, st);
    CallsTrail(st.graph, a.actor, a.calls);
    TrailUndo(st.graph, CallsOps(st.graph, a.actor, a.calls));
  }

  lemma ExecuteKeepsInv(genesis: Graph, st: EngineState, a: Attempt)
    requires Inv(genesis, st) && Legal(st, Execute(a))
    ensures Inv(genesis, DoExecute(st, a))
  {
    if a.admission == Admitted {
      var base := Base(genesis, st);
      var t := WorkingTxn(st, a);
      var ops := CallsOps(st.graph, a.actor, a.calls);
      var handled := Forward(st.graph, ops);
      GraphSound(genesis, st);
      CallsTrail(st.graph, a.actor, a.calls);
      match a.answer
      case Ok(output) =>
        TrailEndsSound(st.graph, ops);
        var marks := MarkOps(a.command, handled, ops, a.actor, a.now);
        MarkOpsEffect(a.command, handled, ops, a.actor, a.now);
        ForwardConcat(base, t.ops, ops);
        ForwardConcat(base, t.ops + ops, marks);
        TrailConcat(base, t.ops, ops);
        TrailConcat(base, t.ops + ops, marks);
        var t' := t.(ops := t.ops + ops + marks, commands := t.commands + [Succeeded(a, output)]);
        var st' := st.(graph := Forward(handled, marks), open := Some(t'));
        assert Inv(genesis, st');
        CommitKeepsInv(genesis, st', a.now);
      case Err(error) =>
        FailureReverts(genesis, st, a);
        var t' := t.(commands := t.commands + [Failed(a, error)]);
        var st' := st.(graph := Backward(handled, ops), open := Some(t'));
        assert Inv(genesis, st');
        RollbackKeepsInv(genesis, st');
    }
  }

  /** Flipping one record's flag at the cursor changes neither the ops nor the other records. */
  lemma FlippedRecords(records: seq<TxnRecord>, k: nat, undone: bool)
    requires k < |records|
    ensures var flipped := records[k := records[k].(undone := undone)];
            && AllOps(flipped) == AllOps(records)
            && flipped[..k] == records[..k]
            && AllOps(flipped[..k + 1]) == AllOps(records[..k + 1])
  {
    var flipped := records[k := records[k].(undone := undone)];
    AllOpsSame(records, flipped);
    AllOpsSame(records[..k + 1], flipped[..k + 1]);
  }

  /** Crossing one record, backward or forward. */
  lemma RecordCrossed(genesis: Graph, records: seq<TxnRecord>, k: nat)
    requires k < |records| && Trail(genesis, AllOps(records))
    ensures var before, after := Forward(genesis, AllOps(records[..k])), Forward(genesis, AllOps(records[..k + 1]));
            && Sound(before) && Sound(after) && Trail(before, records[k].ops)
            && Forward(before, records[k].ops) == after
            && Backward(after, records[k].ops) == before
  {
    var done := AllOps(records[..k]);
    AllOpsOne(records, k);
    JournalSplit(genesis, records, k + 1);
    TrailConcat(genesis, done, records[k].ops);
    ForwardConcat(genesis, done, records[k].ops);
    TrailUndo(Forward(genesis, done), records[k].ops);
    TrailEndsSound(Forward(genesis, done), records[k].ops);
  }

  lemma Idle(genesis: Graph, st: EngineState)
    requires st.open.None? && st.cursor <= |st.records|
    ensures Inv(genesis, st) <==>
         && WellNumbered(st.records, st.cursor) && Trail(genesis, AllOps(st.records))
         && Sound(Base(genesis, st)) && st.graph == Base(genesis, st)
  {
    assert Forward(Base(genesis, st), []) == Base(genesis, st);
  }

  lemma UndoKeepsInv(genesis: Graph, st: EngineState)
    requires Inv(genesis, st)
    ensures Inv(genesis, DoUndo(st))
  {
    if st.open.None? && st.cursor > 0 {
      Idle(genesis, st);
      CursorMoves(genesis, st.records, st.cursor - 1, true);
      Idle(genesis, DoUndo(st));
    }
  }

  /** The journal after the record at `k` has been undone or redone. */
  lemma CursorMoves(genesis: Graph, records: seq<TxnRecord>, k: nat, undone: bool)
    requires k < |records| && WellNumbered(records, if undone then k + 1 else k) && Trail(genesis, AllOps(records))
    ensures var flipped, cursor := records[k := records[k].(undone := undone)], if undone then k else k + 1;
            && WellNumbered(flipped, cursor) && Trail(genesis, AllOps(flipped))
            && AllOps(flipped[..cursor]) == AllOps(records[..cursor])
            && Sound(Forward(genesis, AllOps(records[..cursor])))
    ensures Forward(Forward(genesis, AllOps(records[..k])), records[k].ops) == Forward(genesis, AllOps(records[..k + 1]))
    ensures Backward(Forward(genesis, AllOps(records[..k + 1])), records[k].ops) == Forward(genesis, AllOps(records[..k]))
  {
    FlippedRecords(records, k, undone);
    RecordCrossed(genesis, records, k);
  }

  lemma RedoKeepsInv(genesis: Graph, st: EngineState)
    requires Inv(genesis, st)
    ensures Inv(genesis, DoRedo(st))
  {
    if st.open.None? && st.cursor < |st.records| {
      Idle(genesis, st);
      CursorMoves(genesis, st.records, st.cursor, false);
      Idle(genesis, DoRedo(st));
    }
  }

  lemma UndoneGraph(genesis: Graph, st: EngineState)
    requires Inv(genesis, st) && st.open.None? && st.cursor > 0
    ensures DoUndo(st).graph == Forward(genesis, AllOps(st.records[..st.cursor - 1]))
  {
    Idle(genesis, st);
    RecordCrossed(genesis, st.records, st.cursor - 1);
  }

  lemma RedoneGraph(genesis: Graph, st: EngineState)
    requires Inv(genesis, st) && st.open.None? && st.cursor < |st.records|
    ensures DoRedo(st).graph == Forward(genesis, AllOps(st.records[..st.cursor + 1]))
  {
    Idle(genesis, st);
    RecordCrossed(genesis, st.records, st.cursor);
  }

  lemma StepKeepsInv(genesis: Graph, st: EngineState, ev: Event)
    requires Inv(genesis, st) && Legal(st, ev)
    ensures Inv(genesis, Step(st, ev))
  {
    match ev
    case Execute(a) => ExecuteKeepsInv(genesis, st, a);
    case Begin(_, _, _, _) => GraphSound(genesis, st);
    case Commit(now) => CommitKeepsInv(genesis, st, now);
    case Rollback => RollbackKeepsInv(genesis, st);
    case Undo => UndoKeepsInv(genesis, st);
    case Redo => RedoKeepsInv(genesis, st);
  }
}
