/** Theorems about whole runs of the engine. */
module EngineRuns {
  import opened Prelude
  import opened ProjectGraph
  import opened Journal
  import opened Calls
  import opened HistoryLog
  import opened Staleness
  import opened EngineModel

  function Run(st: EngineState, events: seq<Event>): (r: EngineState)
    requires st.cursor <= |st.records|
    ensures r.cursor <= |r.records|
    decreases |events|
  {
    if events == [] then st else Run(Step(st, events[0]), events[1..])
  }

  ghost predicate LegalRun(st: EngineState, events: seq<Event>)
    requires st.cursor <= |st.records|
    decreases |events|
  {
    events == [] || (Legal(st, events[0]) && LegalRun(Step(st, events[0]), events[1..]))
  }

  lemma RunFirst(st: EngineState, ev: Event, rest: seq<Event>)
    requires st.cursor <= |st.records|
    ensures Run(st, [ev] + rest) == Run(Step(st, ev), rest)
    ensures LegalRun(st, [ev] + rest) <==> Legal(st, ev) && LegalRun(Step(st, ev), rest)
  {
    assert ([ev] + rest)[1..] == rest;
  }

  lemma {:induction false} RunConcat(st: EngineState, a: seq<Event>, b: seq<Event>)
    requires st.cursor <= |st.records|
    ensures Run(st, a + b) == Run(Run(st, a), b)
    ensures LegalRun(st, a + b) <==> LegalRun(st, a) && LegalRun(Run(st, a), b)
    decreases |a|
  {
    if a == [] {
      assert a + b == b;
    } else {
      assert (a + b)[0] == a[0] && (a + b)[1..] == a[1..] + b;
      RunConcat(Step(st, a[0]), a[1..], b);
    }
  }

  /** One more event at the end of a run. */
  lemma RunNext(st: EngineState, events: seq<Event>, ev: Event)
    requires st.cursor <= |st.records|
    ensures Run(st, events + [ev]) == Step(Run(st, events), ev)
    ensures LegalRun(st, events + [ev]) <==> LegalRun(st, events) && Legal(Run(st, events), ev)
  {
    RunConcat(st, events, [ev]);
    assert [ev][1..] == [];
  }

  lemma {:induction false} RunKeepsInv(genesis: Graph, st: EngineState, events: seq<Event>)
    requires Inv(genesis, st) && LegalRun(st, events)
    ensures Inv(genesis, Run(st, events))
    decreases |events|
  {
    if events != [] {
      StepKeepsInv(genesis, st, events[0]);
      RunKeepsInv(genesis, Step(st, events[0]), events[1..]);
    }
  }

  /**
   The main invariant: whatever commands, failing ones included, transactions and undo or
   redo steps a run is made of, the live graph is the applied journal on top of the
   initial graph plus the open transaction.
   */
  lemma EveryReachableState(genesis: Graph, events: seq<Event>)
    requires Sound(genesis) && LegalRun(Start(genesis), events)
    ensures var st := Run(Start(genesis), events);
            && Inv(genesis, st)
            && Sound(st.graph)
            && st.graph == Forward(genesis, AllOps(st.records[..st.cursor]) + Pending(st))
  {
    StartInv(genesis);
    RunKeepsInv(genesis, Start(genesis), events);
    var st := Run(Start(genesis), events);
    GraphSound(genesis, st);
    ForwardConcat(genesis, AllOps(st.records[..st.cursor]), Pending(st));
  }

  // ----- undo and redo -----------------------------------------------------

  function UndoTimes(st: EngineState, n: nat): (r: EngineState)
    requires st.cursor <= |st.records|
    ensures r.cursor <= |r.records|
    decreases n
  {
    if n == 0 then st else UndoTimes(DoUndo(st), n - 1)
  }

  function RedoTimes(st: EngineState, n: nat): (r: EngineState)
    requires st.cursor <= |st.records|
    ensures r.cursor <= |r.records|
    decreases n
  {
    if n == 0 then st else RedoTimes(DoRedo(st), n - 1)
  }

  lemma FlippedBack(records: seq<TxnRecord>, k: nat, undone: bool)
    requires k < |records| && records[k].undone == undone
    ensures var flipped := records[k := records[k].(undone := !undone)];
            flipped[k := flipped[k].(undone := undone)] == records
  {
  }

  /** Redo brings back exactly what undo took away. */
  lemma UndoThenRedo(genesis: Graph, st: EngineState)
    requires Inv(genesis, st) && st.open.None? && st.cursor > 0
    ensures DoRedo(DoUndo(st)) == st.(dirty := true)
  {
    var k := st.cursor - 1;
    Idle(genesis, st);
    UndoKeepsInv(genesis, st);
    RedoneGraph(genesis, DoUndo(st));
    FlippedRecords(st.records, k, true);
    FlippedBack(st.records, k, false);
  }

  /** Undo takes away exactly what redo brought back. */
  lemma RedoThenUndo(genesis: Graph, st: EngineState)
    requires Inv(genesis, st) && st.open.None? && st.cursor < |st.records|
    ensures DoUndo(DoRedo(st)) == st.(dirty := true)
  {
    var k := st.cursor;
    Idle(genesis, st);
    RedoKeepsInv(genesis, st);
    UndoneGraph(genesis, DoRedo(st));
    FlippedRecords(st.records, k, false);
    FlippedBack(st.records, k, true);
  }

  /** Undoing everything gives the initial graph, name and settings included; the journal stays. */
  lemma {:induction false} UndoAll(genesis: Graph, st: EngineState)
    requires Inv(genesis, st) && st.open.None?
    ensures var end := UndoTimes(st, st.cursor);
            && end.graph == genesis && end.cursor == 0 && end.open.None?
            && |end.records| == |st.records|
            && (forall i :: 0 <= i < |st.records| ==> end.records[i] == st.records[i].(undone := true))
    decreases st.cursor
  {
    if st.cursor == 0 {
      assert st.records[..0] == [];
      assert Base(genesis, st) == genesis;
      forall i | 0 <= i < |st.records|
        ensures st.records[i] == st.records[i].(undone := true)
      {
      }
    } else {
      UndoKeepsInv(genesis, st);
      UndoAll(genesis, DoUndo(st));
    }
  }

  /** Redoing everything gives the graph of the whole journal. */
  lemma {:induction false} RedoAll(genesis: Graph, st: EngineState, n: nat)
    requires Inv(genesis, st) && st.open.None? && n == |st.records| - st.cursor
    ensures var end := RedoTimes(st, n);
            && end.graph == Forward(genesis, AllOps(st.records)) && end.cursor == |st.records| && end.open.None?
            && SameButRedone(st.records, end.records)
    decreases n
  {
    if n == 0 {
      NothingToRedo(genesis, st);
    } else {
      RedoneOnce(genesis, st);
      RedoAll(genesis, DoRedo(st), n - 1);
    }
  }

  /** Equal but for the `undone` flags, which are all clear in `b`. */
  ghost predicate SameButRedone(a: seq<TxnRecord>, b: seq<TxnRecord>) {
    |a| == |b| && forall i :: 0 <= i < |a| ==> b[i] == a[i].(undone := false)
  }

  lemma NothingToRedo(genesis: Graph, st: EngineState)
    requires Inv(genesis, st) && st.open.None? && st.cursor == |st.records|
    ensures st.graph == Forward(genesis, AllOps(st.records))
    ensures SameButRedone(st.records, st.records)
  {
    Idle(genesis, st);
    assert st.records[..st.cursor] == st.records;
    NoneUndone(st.records);
  }

  lemma RedoneOnce(genesis: Graph, st: EngineState)
    requires Inv(genesis, st) && st.open.None? && st.cursor < |st.records|
    ensures var next := DoRedo(st);
            && Inv(genesis, next) && next.open.None? && next.cursor == st.cursor + 1
            && AllOps(next.records) == AllOps(st.records)
            && |next.records| == |st.records|
            && forall b :: SameButRedone(next.records, b) ==> SameButRedone(st.records, b)
  {
    RedoKeepsInv(genesis, st);
    FlippedRecords(st.records, st.cursor, false);
    forall b | SameButRedone(DoRedo(st).records, b)
      ensures SameButRedone(st.records, b)
    {
      FlagCleared(st.records, st.cursor, b);
    }
  }

  lemma FlagCleared(records: seq<TxnRecord>, k: nat, b: seq<TxnRecord>)
    requires k < |records| && SameButRedone(records[k := records[k].(undone := false)], b)
    ensures SameButRedone(records, b)
  {
    var flipped := records[k := records[k].(undone := false)];
    forall i | 0 <= i < |records|
      ensures b[i] == records[i].(undone := false)
    {
      assert b[i] == flipped[i].(undone := false);
    }
  }

  lemma NoneUndone(records: seq<TxnRecord>)
    requires WellNumbered(records, |records|)
    ensures forall i :: 0 <= i < |records| ==> records[i] == records[i].(undone := false)
  {
    forall i | 0 <= i < |records|
      ensures records[i] == records[i].(undone := false)
    {
      assert !records[i].undone;
    }
  }

  /** Undoing everything gives `genesis`; redoing everything then changes nothing but `dirty`. */
  ghost predicate ThereAndBack(genesis: Graph, st: EngineState)
    requires st.cursor <= |st.records|
  {
    var undone := UndoTimes(st, st.cursor);
    var redone := RedoTimes(undone, |undone.records| - undone.cursor);
    && undone.graph == genesis
    && redone.graph == st.graph && redone.records == st.records && redone.cursor == st.cursor
  }

  /** From the newest state of any run. */
  lemma UndoAllRedoAll(genesis: Graph, events: seq<Event>)
    requires Sound(genesis) && LegalRun(Start(genesis), events)
    requires var st := Run(Start(genesis), events); st.open.None? && st.cursor == |st.records|
    ensures ThereAndBack(genesis, Run(Start(genesis), events))
  {
    EveryReachableState(genesis, events);
    NewestThereAndBack(genesis, Run(Start(genesis), events));
  }

  lemma NewestThereAndBack(genesis: Graph, st: EngineState)
    requires Inv(genesis, st) && st.open.None? && st.cursor == |st.records|
    ensures ThereAndBack(genesis, st)
  {
    var undone := UndoTimes(st, st.cursor);
    NothingToRedo(genesis, st);
    UndoAll(genesis, st);
    UndoTimesKeepsInv(genesis, st, st.cursor);
    RedoAll(genesis, undone, |undone.records|);
    AllOpsSame(st.records, undone.records);
    SameButFlags(st.records, undone.records, RedoTimes(undone, |undone.records|).records);
  }

  lemma SameButFlags(records: seq<TxnRecord>, undone: seq<TxnRecord>, redone: seq<TxnRecord>)
    requires |undone| == |records| && forall i :: 0 <= i < |records| ==> undone[i] == records[i].(undone := true)
    requires SameButRedone(undone, redone) && SameButRedone(records, records)
    ensures redone == records
  {
  }

  lemma {:induction false} UndoTimesKeepsInv(genesis: Graph, st: EngineState, n: nat)
    requires Inv(genesis, st)
    ensures Inv(genesis, UndoTimes(st, n))
    decreases n
  {
    if n > 0 {
      UndoKeepsInv(genesis, st);
      UndoTimesKeepsInv(genesis, DoUndo(st), n - 1);
    }
  }

  // ----- transactions ------------------------------------------------------

  /** While a transaction is open, nothing but commit and rollback touches the journal. */
  lemma {:induction false} OpenRun(genesis: Graph, st: EngineState, events: seq<Event>)
    requires Inv(genesis, st) && st.open.Some? && LegalRun(st, events)
    requires forall i :: 0 <= i < |events| ==> !events[i].Commit? && !events[i].Rollback?
    ensures var end := Run(st, events);
            && Inv(genesis, end) && end.open.Some?
            && end.records == st.records && end.cursor == st.cursor && end.dirty == st.dirty
    decreases |events|
  {
    if events != [] {
      StepKeepsInv(genesis, st, events[0]);
      OpenStep(st, events[0]);
      OpenRun(genesis, Step(st, events[0]), events[1..]);
    }
  }

  lemma OpenStep(st: EngineState, ev: Event)
    requires st.cursor <= |st.records| && st.open.Some? && !ev.Commit? && !ev.Rollback?
    ensures Step(st, ev) == st.(graph := Step(st, ev).graph, open := Step(st, ev).open) && Step(st, ev).open.Some?
  {
  }

  /**
   Whatever is attempted between begin and rollback, commands, nested begins, undo or redo,
   rollback puts back graph, journal, cursor and dirty flag exactly.
   */
  lemma RollbackRestores(genesis: Graph, st: EngineState, begin: Event, events: seq<Event>)
    requires Inv(genesis, st) && st.open.None? && begin.Begin?
    requires LegalRun(Step(st, begin), events)
    requires forall i :: 0 <= i < |events| ==> !events[i].Commit? && !events[i].Rollback?
    ensures Step(Run(Step(st, begin), events), Rollback) == st
  {
    StepKeepsInv(genesis, st, begin);
    OpenRun(genesis, Step(st, begin), events);
    var end := Run(Step(st, begin), events);
    RollbackKeepsInv(genesis, end);
    assert Base(genesis, end) == Base(genesis, st) == st.graph;
  }

  /**
   A failing command, whatever it did before failing, leaves the graph and the ops of the
   transaction alone; all that remains is an `ok: false` record in a caller's transaction.
   */
  lemma FailureLeavesNothing(genesis: Graph, st: EngineState, a: Attempt)
    requires Inv(genesis, st) && Legal(st, Execute(a)) && a.admission == Admitted && a.answer.Err?
    ensures var end := Step(st, Execute(a));
            if st.open.None? then end == st
            else end == st.(open := Some(st.open.value.(commands := st.open.value.commands + [Failed(a, a.answer.error)])))
  {
    FailureReverts(genesis, st, a);
  }

  /** A successful stand-alone command is one record that undo takes back, staleness marks included. */
  lemma CommandUndoes(genesis: Graph, st: EngineState, a: Attempt)
    requires Inv(genesis, st) && st.open.None? && Legal(st, Execute(a)) && a.admission == Admitted && a.answer.Ok?
    ensures var done := Step(st, Execute(a));
            && done.cursor == st.cursor + 1 == |done.records|
            && done.records[..st.cursor] == st.records[..st.cursor]
            && Step(done, Undo).graph == st.graph
  {
    var done := Step(st, Execute(a));
    Idle(genesis, st);
    ExecutedAlone(st, a);
    ExecuteKeepsInv(genesis, st, a);
    UndoneGraph(genesis, done);
  }

  /** The journal a stand-alone success leaves. */
  lemma ExecutedAlone(st: EngineState, a: Attempt)
    requires st.cursor <= |st.records| && st.open.None? && a.admission == Admitted && a.answer.Ok?
    ensures var done := DoExecute(st, a);
            && done.open.None? && done.cursor == st.cursor + 1 == |done.records|
            && done.records[..st.cursor] == st.records[..st.cursor]
  {
  }

  /** The graph a success leaves: the handler's ops, then the marks. */
  lemma ExecutedGraph(st: EngineState, a: Attempt)
    requires st.cursor <= |st.records| && a.admission == Admitted && a.answer.Ok?
    ensures var ops := CallsOps(st.graph, a.actor, a.calls);
            var handled := Forward(st.graph, ops);
            DoExecute(st, a).graph == Forward(handled, MarkOps(a.command, handled, ops, a.actor, a.now))
  {
  }

  lemma MarkedGraphIsClean(command: string, g: Graph, ops: seq<StateOp>, actor: string, now: int)
    requires Sound(g) && !WritesStatus(command)
    ensures var end := Forward(g, MarkOps(command, g, ops, actor, now));
            && (forall i :: i in TouchedBy(ops) && i in end.objects ==> !Settled(end.objects[i]))
            && (forall k :: k in end.relations && DependsInto(end.relations[k], TouchedBy(ops))
                  ==> end.relations[k].from in end.objects && !Settled(end.objects[end.relations[k].from]))
  {
    NoStaleVerdictSurvives(command, g, ops, actor, now);
  }

  /** A successful command leaves no verdict standing on an object it changed or on one that depends on it. */
  lemma CommandMarksDependents(genesis: Graph, st: EngineState, a: Attempt)
    requires Inv(genesis, st) && Legal(st, Execute(a)) && a.admission == Admitted && a.answer.Ok?
    requires !WritesStatus(a.command)
    ensures var touched := TouchedBy(CallsOps(st.graph, a.actor, a.calls));
            var end := Step(st, Execute(a)).graph;
            && (forall i :: i in touched && i in end.objects ==> !Settled(end.objects[i]))
            && (forall k :: k in end.relations && DependsInto(end.relations[k], touched)
                  ==> end.relations[k].from in end.objects && !Settled(end.objects[end.relations[k].from]))
  {
    var ops := CallsOps(st.graph, a.actor, a.calls);
    GraphSound(genesis, st);
    CallsTrail(st.graph, a.actor, a.calls);
    TrailEndsSound(st.graph, ops);
    ExecutedGraph(st, a);
    MarkedGraphIsClean(a.command, Forward(st.graph, ops), ops, a.actor, a.now);
  }

  // ----- states in the middle of a step -------------------------------------

  function ForwardStates(g: Graph, ops: seq<StateOp>): seq<Graph> {
    seq(|ops| + 1, k requires 0 <= k <= |ops| => Forward(g, ops[..k]))
  }

  function BackwardStates(g: Graph, ops: seq<StateOp>): seq<Graph> {
    seq(|ops| + 1, k requires 0 <= k <= |ops| => Backward(g, ops[k..]))
  }

  /** Every graph a step passes through, one op at a time. */
  function Passes(st: EngineState, ev: Event): seq<Graph>
    requires st.cursor <= |st.records|
  {
    match ev
    case Execute(a) =>
      if a.admission != Admitted then [st.graph] else
        var ops := CallsOps(st.graph, a.actor, a.calls);
        var handled := Forward(st.graph, ops);
        if a.answer.Ok? then
          ForwardStates(st.graph, ops) + ForwardStates(handled, MarkOps(a.command, handled, ops, a.actor, a.now))
        else
          ForwardStates(st.graph, ops) + BackwardStates(handled, ops)
    case Rollback => if st.open.Some? then BackwardStates(st.graph, st.open.value.ops) else [st.graph]
    case Undo => if st.open.Some? || st.cursor == 0 then [st.graph] else BackwardStates(st.graph, st.records[st.cursor - 1].ops)
    case Redo => if st.open.Some? || st.cursor == |st.records| then [st.graph] else ForwardStates(st.graph, st.records[st.cursor].ops)
    case _ => [st.graph]
  }

  lemma TrailPasses(g: Graph, ops: seq<StateOp>)
    requires Trail(g, ops)
    ensures forall x :: x in ForwardStates(g, ops) ==> Sound(x)
    ensures forall x :: x in BackwardStates(Forward(g, ops), ops) ==> Sound(x)
  {
    forall k | 0 <= k <= |ops|
      ensures Sound(Forward(g, ops[..k])) && Sound(Backward(Forward(g, ops), ops[k..]))
    {
      TrailStates(g, ops, k);
    }
  }

  /** No step, failing, rolling back, undoing or redoing, ever passes through a dangling graph. */
  lemma EveryStateMetIsSound(genesis: Graph, st: EngineState, ev: Event)
    requires Inv(genesis, st) && Legal(st, ev)
    ensures forall x :: x in Passes(st, ev) ==> Sound(x)
  {
    GraphSound(genesis, st);
    match ev
    case Execute(a) =>
      var ops := CallsOps(st.graph, a.actor, a.calls);
      var handled := Forward(st.graph, ops);
      CallsTrail(st.graph, a.actor, a.calls);
      TrailPasses(st.graph, ops);
      TrailEndsSound(st.graph, ops);
      MarkOpsEffect(a.command, handled, ops, a.actor, a.now);
      TrailPasses(handled, MarkOps(a.command, handled, ops, a.actor, a.now));
    case Rollback =>
      TrailPasses(Base(genesis, st), Pending(st));
    case Undo =>
      if st.open.None? && st.cursor > 0 {
        Idle(genesis, st);
        RecordCrossed(genesis, st.records, st.cursor - 1);
        TrailPasses(Forward(genesis, AllOps(st.records[..st.cursor - 1])), st.records[st.cursor - 1].ops);
      }
    case Redo =>
      if st.open.None? && st.cursor < |st.records| {
        Idle(genesis, st);
        RecordCrossed(genesis, st.records, st.cursor);
        TrailPasses(st.graph, st.records[st.cursor].ops);
      }
    case _ =>
  }

  // ----- replay ------------------------------------------------------------

  predicate AgreeAt(a: map<string, Json>, b: map<string, Json>, key: string) {
    (key in a <==> key in b) && (key in a && key in b ==> a[key] == b[key])
  }

  /** Objects and relations after a list of ops do not depend on the rest of the graph. */
  lemma {:induction false} ForwardEntities(g: Graph, h: Graph, ops: seq<StateOp>)
    requires g.objects == h.objects && g.relations == h.relations
    ensures Forward(g, ops).objects == Forward(h, ops).objects
    ensures Forward(g, ops).relations == Forward(h, ops).relations
    decreases |ops|
  {
    if ops != [] {
      ForwardEntities(Apply(g, ops[0], true), Apply(h, ops[0], true), ops[1..]);
    }
  }

  lemma {:induction false} ForwardHeader(g: Graph, ops: seq<StateOp>)
    ensures var e := Forward(g, ops); e.id == g.id && e.schemaVersion == g.schemaVersion && e.createdAt == g.createdAt
    decreases |ops|
  {
    if ops != [] {
      ForwardHeader(Apply(g, ops[0], true), ops[1..]);
    }
  }

  /** The name after a list of ops is the last one written, or the first one when none is. */
  lemma {:induction false} ForwardName(g: Graph, h: Graph, ops: seq<StateOp>)
    ensures Forward(g, ops).name == Forward(h, ops).name
         || (Forward(g, ops).name == g.name && Forward(h, ops).name == h.name)
    decreases |ops|
  {
    if ops != [] {
      ForwardName(Apply(g, ops[0], true), Apply(h, ops[0], true), ops[1..]);
    }
  }

  /** So is the value of each settings key. */
  lemma {:induction false} ForwardKey(g: Graph, h: Graph, ops: seq<StateOp>, key: string)
    ensures AgreeAt(Forward(g, ops).settings, Forward(h, ops).settings, key)
         || (AgreeAt(Forward(g, ops).settings, g.settings, key) && AgreeAt(Forward(h, ops).settings, h.settings, key))
    decreases |ops|
  {
    if ops != [] {
      var g1, h1 := Apply(g, ops[0], true), Apply(h, ops[0], true);
      ForwardKey(g1, h1, ops[1..], key);
      if !(ops[0].SetProjectMeta? && ops[0].key == key && key != PROJECT_NAME_META_KEY) {
        assert AgreeAt(g1.settings, g.settings, key) && AgreeAt(h1.settings, h.settings, key);
      } else {
        assert AgreeAt(g1.settings, h1.settings, key);
      }
    }
  }

  /**
   Replaying the journal over the live project changes nothing when the run began with an
   empty graph, although the name and the settings are not cleared first.
   */
  lemma ReplayIsIdentity(genesis: Graph, events: seq<Event>)
    requires genesis.objects == map[] && genesis.relations == map[]
    requires LegalRun(Start(genesis), events)
    requires Run(Start(genesis), events).open.None?
    ensures var st := Run(Start(genesis), events);
            Replayed(st.graph, st.records[..st.cursor]) == st.graph
  {
    EveryReachableState(genesis, events);
    var st := Run(Start(genesis), events);
    var ops := AllOps(st.records[..st.cursor]);
    var again := Forward(Cleared(st.graph), ops);
    ForwardEntities(genesis, Cleared(st.graph), ops);
    ForwardHeader(Cleared(st.graph), ops);
    ForwardName(genesis, Cleared(st.graph), ops);
    forall key
      ensures AgreeAt(again.settings, st.graph.settings, key)
    {
      ForwardKey(genesis, Cleared(st.graph), ops, key);
    }
    SettingsEqual(again.settings, st.graph.settings);
  }

  lemma SettingsEqual(a: map<string, Json>, b: map<string, Json>)
    requires forall key :: AgreeAt(a, b, key)
    ensures a == b
  {
    assert forall key :: key in a ==> AgreeAt(a, b, key);
    assert forall key :: key in b ==> AgreeAt(a, b, key);
  }
}
