/**
 Saving and reopening an engine. What comes back of a file obeys the engine's invariant
 exactly when the saved graph is the one its journal leads to.
 */
module Persistence {
  import opened Prelude
  import opened ProjectGraph
  import opened Journal
  import opened Calls
  import opened HistoryLog
  import opened EngineModel
  import opened EngineRuns
  import opened GovernedEngine
  import opened StoreRows
  import opened ProjectStore

  /** The state an engine has when it is opened on what `st` saved. */
  function Reopened(st: EngineState): EngineState {
    EngineState(KeptGraph(st.graph), KeptRecords(st.records), st.cursor, None, false)
  }

  /** A graph as its kept journal tells it: a setting written as null has never been written. */
  function Told(g: Graph): Graph {
    KeptGraph(g).(settings := ToldSettings(g.settings))
  }

  function ToldSettings(settings: map<string, Json>): map<string, Json> {
    map k | k in settings && settings[k] != Null :: settings[k]
  }

  predicate NoNullSetting(g: Graph) {
    forall k :: k in g.settings ==> g.settings[k] != Null
  }

  // ----- the engine's two calls ------------------------------------------------------------

  /** `save_as`: whatever is open stays open, and is not written. */
  method SaveAs(e: Engine, store: Store) returns (r: Result<(), StoreError>)
    requires e.Valid() && store != e as object && store.faults != e as object
    modifies e`dirty, store, store.faults
    ensures e.State() == if r.Ok? then old(e.State()).(dirty := false) else old(e.State())
    ensures var s := Snapshot(old(e.project.State()), old(e.history.records), old(e.history.cursor), FORMAT_VERSION);
            && (Landed(r) ==> Stores(store.disk, s))
            && (!Landed(r) ==> store.disk == old(store.disk))
            && (KeysAreIds(s.graph) ==> r == SaveOutcome(old(store.faults.armed)))
  {
    var s := Snapshot(e.project.State(), e.history.records, e.history.cursor, FORMAT_VERSION);
    r := store.Save(s);
    if r.Err? {
      return;
    }
    e.dirty := false;
  }

  /** `open`: load, and run on with no open transaction. */
  method OpenFrom(store: Store) returns (r: Result<Engine, StoreError>)
    modifies store.faults
    ensures r.Ok? <==> Loaded(store.disk, old(store.faults.armed)).Ok?
    ensures r.Err? ==> r.error == Loaded(store.disk, old(store.faults.armed)).error
    ensures r.Ok? ==>
      var s := Loaded(store.disk, old(store.faults.armed)).value;
      fresh(r.value.Repr()) && r.value.Valid() && r.value.State() == EngineState(s.graph, s.records, s.cursor, None, false)
  {
    var s := store.Load();
    if s.Err? {
      return Err(s.error);
    }
    var e := new Engine.Open(s.value.graph, s.value.records, s.value.cursor);
    return Ok(e);
  }

  /** Opening the file of a reachable engine succeeds and finds `Reopened`. */
  lemma SavedEngineOpens(genesis: Graph, st: EngineState, t: Tables)
    requires Inv(genesis, st) && Stores(t, Snapshot(st.graph, st.records, st.cursor, FORMAT_VERSION))
    ensures Loaded(t, []).Ok?
    ensures var s := Loaded(t, []).value; EngineState(s.graph, s.records, s.cursor, None, false) == Reopened(st)
  {
    GraphSound(genesis, st);
    LoadUndoesSave(t, Snapshot(st.graph, st.records, st.cursor, FORMAT_VERSION));
  }

  /** After a save, whatever fault it met, the file opens with the old state or with the new one. */
  lemma OldOrNew(before: Tables, after: Tables, s0: Snapshot, s: Snapshot, r: Result<(), StoreError>)
    requires Stores(before, s0) && KeysAreIds(s0.graph) && WellNumbered(s0.records, s0.cursor)
    requires KeysAreIds(s.graph) && WellNumbered(s.records, s.cursor)
    requires Landed(r) ==> Stores(after, s)
    requires !Landed(r) ==> after == before
    ensures Loaded(after, []) == Ok(Kept(if Landed(r) then s else s0))
  {
    if Landed(r) {
      LoadUndoesSave(after, s);
    } else {
      LoadUndoesSave(before, s0);
    }
  }

  // ----- the journal after a reload ------------------------------------------------------------

  function KeptTarget(o: Option<Object>): Option<Object> {
    if o.Some? then Some(KeptObject(o.value)) else None
  }

  function KeptEnd(r: Option<Relation>): Option<Relation> {
    if r.Some? then Some(KeptRelation(r.value)) else None
  }

  lemma KeptApplyObject(objects: map<Id, Object>, target: Option<Object>, other: Option<Object>)
    ensures KeptObjects(ApplyObject(objects, target, other)) == ApplyObject(KeptObjects(objects), KeptTarget(target), KeptTarget(other))
  {
  }

  lemma KeptApplyRelation(relations: map<Id, Relation>, target: Option<Relation>, other: Option<Relation>)
    ensures KeptRelations(ApplyRelation(relations, target, other))
         == ApplyRelation(KeptRelations(relations), KeptEnd(target), KeptEnd(other))
  {
  }

  lemma ToldApplySettings(settings: map<string, Json>, key: string, target: Option<Json>)
    ensures ToldSettings(ApplySettings(settings, key, target)) == ApplySettings(ToldSettings(settings), key, KeptOption(target))
  {
  }

  /** Reading back commutes with applying an op, in either direction. */
  lemma ToldApply(g: Graph, op: StateOp, forward: bool)
    ensures Told(Apply(g, op, forward)) == Apply(Told(g), KeptOp(op), forward)
  {
    match op
    case SetObject(before, after) =>
      KeptApplyObject(g.objects, if forward then after else before, if forward then before else after);
    case SetRelation(before, after) =>
      KeptApplyRelation(g.relations, if forward then after else before, if forward then before else after);
    case SetProjectMeta(key, before, after) =>
      ToldApplySettings(g.settings, key, if forward then after else before);
  }

  lemma ToldSound(g: Graph)
    requires Sound(g)
    ensures Sound(Told(g))
  {
  }

  lemma {:induction false} ToldForward(g: Graph, ops: seq<StateOp>)
    ensures Told(Forward(g, ops)) == Forward(Told(g), KeptOps(ops))
    decreases |ops|
  {
    if ops != [] {
      assert KeptOps(ops)[0] == KeptOp(ops[0]) && KeptOps(ops)[1..] == KeptOps(ops[1..]);
      ToldApply(g, ops[0], true);
      ToldForward(Apply(g, ops[0], true), ops[1..]);
    }
  }

  lemma {:induction false} ToldTrail(g: Graph, ops: seq<StateOp>)
    requires Trail(g, ops)
    ensures Trail(Told(g), KeptOps(ops))
    decreases |ops|
  {
    ToldSound(g);
    if ops != [] {
      assert KeptOps(ops)[0] == KeptOp(ops[0]) && KeptOps(ops)[1..] == KeptOps(ops[1..]);
      ToldApply(g, ops[0], true);
      ToldApply(Apply(g, ops[0], true), ops[0], false);
      ToldTrail(Apply(g, ops[0], true), ops[1..]);
    }
  }

  lemma {:induction false} KeptAllOps(records: seq<TxnRecord>)
    ensures AllOps(KeptRecords(records)) == KeptOps(AllOps(records))
    decreases |records|
  {
    if records != [] {
      assert KeptRecords(records)[0] == KeptRecord(records[0]) && KeptRecords(records)[1..] == KeptRecords(records[1..]);
      KeptAllOps(records[1..]);
      var a, b := records[0].ops, AllOps(records[1..]);
      assert KeptOps(a + b) == KeptOps(a) + KeptOps(b);
    }
  }

  lemma ReopenedJournal(genesis: Graph, st: EngineState)
    requires Inv(genesis, st)
    ensures WellNumbered(Reopened(st).records, Reopened(st).cursor)
    ensures Trail(Told(genesis), AllOps(Reopened(st).records))
    ensures Base(Told(genesis), Reopened(st)) == Told(Base(genesis, st))
  {
    KeptAllOps(st.records);
    ToldTrail(genesis, AllOps(st.records));
    KeptAllOps(st.records[..st.cursor]);
    assert KeptRecords(st.records)[..st.cursor] == KeptRecords(st.records[..st.cursor]);
    ToldForward(genesis, AllOps(st.records[..st.cursor]));
  }

  /**
   A reopened engine satisfies the engine's invariant, and with it everything proved of every
   run, if and only if the graph that was saved reads back as the graph the saved journal tells.
   */
  lemma ReopenedInv(genesis: Graph, st: EngineState)
    requires Inv(genesis, st)
    ensures Inv(Told(genesis), Reopened(st)) <==> KeptGraph(st.graph) == Told(Base(genesis, st))
  {
    var st', g := Reopened(st), Told(genesis);
    ReopenedJournal(genesis, st);
    GraphSound(genesis, st);
    var base := Base(g, st');
    assert Forward(base, []) == base;
    JournalSplit(genesis, st.records, st.cursor);
    TrailEndsSound(genesis, AllOps(st.records[..st.cursor]));
    ToldSound(Base(genesis, st));
    assert Trail(base, []);
  }

  /** With nothing open, that is: if and only if no setting is null. */
  lemma ReopenedIdle(genesis: Graph, st: EngineState)
    requires Inv(genesis, st) && Pending(st) == []
    ensures Inv(Told(genesis), Reopened(st)) <==> NoNullSetting(st.graph)
  {
    ReopenedInv(genesis, st);
    assert Forward(Base(genesis, st), []) == Base(genesis, st);
    SettingsKept(st.graph);
  }

  lemma SettingsKept(g: Graph)
    ensures KeptGraph(g) == Told(g) <==> NoNullSetting(g)
  {
    if NoNullSetting(g) {
      assert KeptGraph(g).settings == Told(g).settings;
    } else {
      var k :| k in g.settings && g.settings[k] == Null;
      assert k !in Told(g).settings;
    }
  }

  /** With plain values throughout: if and only if what is open has changed nothing so far. */
  lemma ReopenedPlain(genesis: Graph, st: EngineState)
    requires Inv(genesis, st) && st.graph.schemaVersion == Base(genesis, st).schemaVersion == PROJECT_SCHEMA_VERSION
    requires PlainGraph(st.graph) && PlainGraph(Base(genesis, st))
    requires NoNullSetting(st.graph) && NoNullSetting(Base(genesis, st))
    ensures Inv(Told(genesis), Reopened(st)) <==> st.graph == Base(genesis, st)
  {
    ReopenedInv(genesis, st);
    KeptGraphExact(st.graph);
    KeptGraphExact(Base(genesis, st));
    SettingsKept(Base(genesis, st));
  }

  lemma UndoneRecordsKept(st: EngineState)
    requires 0 < st.cursor <= |st.records| && st.open.None?
    ensures DoUndo(Reopened(st)).records == KeptRecords(DoUndo(st).records)
    ensures DoUndo(Reopened(st)).cursor == DoUndo(st).cursor
  {
  }

  /** A reopened engine undoes exactly as the running one would have. */
  lemma ReopenedUndoes(genesis: Graph, st: EngineState)
    requires Inv(genesis, st) && st.open.None? && NoNullSetting(st.graph) && st.cursor > 0
    ensures DoUndo(Reopened(st)) == EngineState(Told(DoUndo(st).graph), KeptRecords(DoUndo(st).records), DoUndo(st).cursor, None, true)
  {
    ReopenedIdle(genesis, st);
    var st1, after := DoUndo(st), DoUndo(Reopened(st));
    UndoKeepsInv(genesis, st);
    UndoKeepsInv(Told(genesis), Reopened(st));
    UndoneRecordsKept(st);
    ReopenedUndone(genesis, st1, after);
  }

  lemma ReopenedUndone(genesis: Graph, st: EngineState, st': EngineState)
    requires Inv(genesis, st) && st.open.None? && Inv(Told(genesis), st') && st'.open.None?
    requires st'.records == KeptRecords(st.records) && st'.cursor == st.cursor
    ensures st'.graph == Told(st.graph)
  {
    ReopenedJournal(genesis, st);
    var g, g' := Base(genesis, st), Base(Told(genesis), st');
    assert Forward(g, []) == g && Forward(g', []) == g';
  }

  // ----- the two ways to lose the invariant --------------------------------------------------------

  /** A new, empty project. */
  function Fresh(name: string): Graph {
    Graph(0, PROJECT_SCHEMA_VERSION, 0, name, map[], map[], map[])
  }

  /** A transaction is opened and an object inserted. */
  function Inserting(o: Object, actor: string, now: int): seq<Event> {
    [Begin(0, actor, "", now), Doing("object.create", InsertObject(o), actor, now)]
  }

  /** One command on its own sets a setting to null. */
  function Nulling(key: string, actor: string, now: int): seq<Event> {
    [Doing("project.set_meta", Call.SetMeta(key, Null), actor, now)]
  }

  lemma InsertingLeads(g: Graph, o: Object, actor: string, now: int)
    requires Sound(g) && o.id !in g.objects
    ensures var st := Run(Start(g), Inserting(o, actor, now));
            && LegalRun(Start(g), Inserting(o, actor, now))
            && st.records == [] && o.id in st.graph.objects
  {
    var evs := Inserting(o, actor, now);
    var begun := Step(Start(g), evs[0]);
    assert evs == [evs[0]] + evs[1..] && evs[1..] == [evs[1]] + [];
    RunFirst(Start(g), evs[0], evs[1..]);
    RunFirst(begun, evs[1], []);
    OneInsertion(g, o, actor);
    OpenStep(begun, evs[1]);
    ExecuteLeaves(begun, evs[1].attempt);
    LeftKeeps(g, "object.create", actor, [InsertObject(o)], now);
  }

  lemma OneInsertion(g: Graph, o: Object, actor: string)
    requires o.id !in g.objects
    ensures LegalCalls(g, actor, [InsertObject(o)]) && o.id in Forward(g, CallsOps(g, actor, [InsertObject(o)])).objects
  {
    var op := SetObject(None, Some(o));
    assert [InsertObject(o)][1..] == [] && [op] + [] == [op] && [op][1..] == [];
  }

  lemma NullingLeads(g: Graph, key: string, actor: string, now: int)
    requires Sound(g) && key != PROJECT_NAME_META_KEY
    ensures var st := Run(Start(g), Nulling(key, actor, now));
            && LegalRun(Start(g), Nulling(key, actor, now))
            && st.open.None? && key in st.graph.settings && st.graph.settings[key] == Null
  {
    var evs := Nulling(key, actor, now);
    assert evs == [evs[0]] + [];
    RunFirst(Start(g), evs[0], []);
    OneNull(g, key, actor);
    ExecuteLeaves(Start(g), evs[0].attempt);
    LeftKeeps(g, "project.set_meta", actor, [Call.SetMeta(key, Null)], now);
  }

  lemma OneNull(g: Graph, key: string, actor: string)
    requires key != PROJECT_NAME_META_KEY
    ensures var after := Forward(g, CallsOps(g, actor, [Call.SetMeta(key, Null)]));
            LegalCalls(g, actor, [Call.SetMeta(key, Null)]) && key in after.settings && after.settings[key] == Null
  {
    var op := SetProjectMeta(key, MetaBefore(g, key), Some(Null));
    assert [Call.SetMeta(key, Null)][1..] == [] && [op] + [] == [op] && [op][1..] == [];
  }

  /**
   Saving while a transaction is open: the object inserted so far is in the file, the op that
   inserted it is not, and the reopened engine can never take the object back.
   */
  lemma SaveDuringTransaction(o: Object, actor: string, now: int)
    ensures var st := Run(Start(Fresh("p")), Inserting(o, actor, now));
            Inv(Fresh("p"), st) && !Inv(Told(Fresh("p")), Reopened(st))
  {
    var g, st := Fresh("p"), Run(Start(Fresh("p")), Inserting(o, actor, now));
    InsertingLeads(g, o, actor, now);
    RunKeepsInv(g, Start(g), Inserting(o, actor, now));
    ReopenedInv(g, st);
    assert st.records[..0] == [] && AllOps([]) == [];
    assert o.id in KeptGraph(st.graph).objects;
    assert o.id !in Told(g).objects;
  }

  /** A setting set to null: it is in the file, but the reloaded journal says it was never set. */
  lemma NullSettingLost(key: string, actor: string, now: int)
    requires key != PROJECT_NAME_META_KEY
    ensures var st := Run(Start(Fresh("p")), Nulling(key, actor, now));
            Inv(Fresh("p"), st) && !Inv(Told(Fresh("p")), Reopened(st))
  {
    var g, st := Fresh("p"), Run(Start(Fresh("p")), Nulling(key, actor, now));
    NullingLeads(g, key, actor, now);
    RunKeepsInv(g, Start(g), Nulling(key, actor, now));
    ReopenedIdle(g, st);
  }
}
