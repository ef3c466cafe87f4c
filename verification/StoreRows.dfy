/**
 The rows of a project file: what saving writes, what loading makes of whatever rows it
 finds, and what comes back of what was saved.
 */
module StoreRows {
  import opened Prelude
  import opened ProjectGraph
  import opened Context
  import opened HistoryLog

  const FORMAT_VERSION: nat := 1

  /** A text column: the encoding of a value, or text that does not parse as one. */
  datatype Cell<+T> = Text(value: T) | Garbage

  /** The key/value table, one field for each key; `None` when there is no row. */
  datatype MetaRows = MetaRows(
    projectId: Option<Cell<Id>>, name: Option<string>, schemaVersion: Option<Cell<nat>>,
    formatVersion: Option<Cell<nat>>, createdAt: Option<Cell<int>>, settings: Option<Cell<map<string, Json>>>)

  datatype ObjectRow = ObjectRow(
    id: Cell<Id>, typeId: string, name: string,
    tags: Cell<seq<string>>, components: Cell<map<string, Component>>, meta: Cell<Meta>)

  datatype RelationRow = RelationRow(
    id: Cell<Id>, typeId: string, from: Cell<Id>, to: Cell<Id>,
    properties: Cell<map<string, Json>>, meta: Option<Cell<Option<Meta>>>)

  datatype TxnRow = TxnRow(
    id: Cell<Id>, actor: string, title: string, startedAt: int, committedAt: int, undone: int,
    commands: Cell<seq<CommandRecord>>, ops: Cell<seq<StateOp>>)

  /** A database; the journal rows are listed by ascending `idx`. */
  datatype Tables = Tables(meta: MetaRows, objects: seq<ObjectRow>, relations: seq<RelationRow>, journal: seq<TxnRow>)

  datatype Snapshot = Snapshot(graph: Graph, records: seq<TxnRecord>, cursor: nat, formatVersion: nat)

  datatype FaultPoint =
    | SaveAfterWipe | SaveAfterMeta | SaveAfterObjects | SaveAfterRelations | SaveAfterJournal
    | SaveBeforeCommit | SaveAfterCommit
    | LoadAfterMeta | LoadObjects | LoadRelations | LoadJournal

  datatype StoreError =
    | NotFound
    | Corrupt(what: string)
    | MissingRow(key: string)
    | BadJson
    | DuplicateKey
    | Injected(point: FaultPoint)

  const NO_META := MetaRows(None, None, None, None, None, None)
  const EMPTY := Tables(NO_META, [], [], [])

  // ----- what an encoding keeps -----------------------------------------------------------

  /** An optional JSON value written as `null` reads back as absent. */
  function KeptOption(v: Option<Json>): Option<Json> {
    if v == Some(Null) then None else v
  }

  function KeptMeta(m: Meta): Meta {
    m.(provenance := KeptOption(m.provenance))
  }

  function KeptObject(o: Object): Object {
    o.(meta := KeptMeta(o.meta))
  }

  function KeptRelation(r: Relation): Relation {
    r.(meta := if r.meta.Some? then Some(KeptMeta(r.meta.value)) else None)
  }

  function KeptOp(op: StateOp): StateOp {
    match op
    case SetObject(before, after) =>
      SetObject(if before.Some? then Some(KeptObject(before.value)) else None,
                if after.Some? then Some(KeptObject(after.value)) else None)
    case SetRelation(before, after) =>
      SetRelation(if before.Some? then Some(KeptRelation(before.value)) else None,
                  if after.Some? then Some(KeptRelation(after.value)) else None)
    case SetProjectMeta(key, before, after) => SetProjectMeta(key, KeptOption(before), KeptOption(after))
  }

  function KeptOps(ops: seq<StateOp>): seq<StateOp> {
    seq(|ops|, i requires 0 <= i < |ops| => KeptOp(ops[i]))
  }

  function KeptRecord(rec: TxnRecord): TxnRecord {
    rec.(ops := KeptOps(rec.ops))
  }

  function KeptRecords(records: seq<TxnRecord>): seq<TxnRecord> {
    seq(|records|, i requires 0 <= i < |records| => KeptRecord(records[i]))
  }

  function KeptObjects(objects: map<Id, Object>): map<Id, Object> {
    map k | k in objects :: KeptObject(objects[k])
  }

  function KeptRelations(relations: map<Id, Relation>): map<Id, Relation> {
    map k | k in relations :: KeptRelation(relations[k])
  }

  /** The schema version is written as a constant. */
  function KeptGraph(g: Graph): Graph {
    g.(schemaVersion := PROJECT_SCHEMA_VERSION, objects := KeptObjects(g.objects), relations := KeptRelations(g.relations))
  }

  function Kept(s: Snapshot): Snapshot {
    Snapshot(KeptGraph(s.graph), KeptRecords(s.records), s.cursor, FORMAT_VERSION)
  }

  // ----- encoding ---------------------------------------------------------------------------

  function MetaOf(g: Graph): MetaRows {
    MetaRows(Some(Text(g.id)), Some(g.name), Some(Text(PROJECT_SCHEMA_VERSION)),
             Some(Text(FORMAT_VERSION)), Some(Text(g.createdAt)), Some(Text(g.settings)))
  }

  function EncodeObject(o: Object): ObjectRow {
    ObjectRow(Text(o.id), o.typeId, o.name, Text(o.tags), Text(o.components), Text(KeptMeta(o.meta)))
  }

  function EncodeRelation(r: Relation): RelationRow {
    RelationRow(Text(r.id), r.typeId, Text(r.from), Text(r.to), Text(r.properties),
                if r.meta.Some? then Some(Text(Some(KeptMeta(r.meta.value)))) else None)
  }

  function EncodeRecord(rec: TxnRecord): TxnRow {
    TxnRow(Text(rec.id), rec.actor, rec.title, rec.startedAt, rec.committedAt, if rec.undone then 1 else 0,
           Text(rec.commands), Text(KeptOps(rec.ops)))
  }

  function ObjectRows(objects: map<Id, Object>, order: seq<Id>): seq<ObjectRow>
    requires forall k :: k in order ==> k in objects
  {
    seq(|order|, i requires 0 <= i < |order| => EncodeObject(objects[order[i]]))
  }

  function RelationRows(relations: map<Id, Relation>, order: seq<Id>): seq<RelationRow>
    requires forall k :: k in order ==> k in relations
  {
    seq(|order|, i requires 0 <= i < |order| => EncodeRelation(relations[order[i]]))
  }

  function JournalRows(records: seq<TxnRecord>): seq<TxnRow> {
    seq(|records|, i requires 0 <= i < |records| => EncodeRecord(records[i]))
  }

  /** Each key once, in whatever order the hash map yields them. */
  ghost predicate Lists(order: seq<Id>, keys: set<Id>) {
    Distinct(order) && forall k :: k in order <==> k in keys
  }

  ghost predicate StoredAs(t: Tables, s: Snapshot, objectOrder: seq<Id>, relationOrder: seq<Id>) {
    && Lists(objectOrder, s.graph.objects.Keys) && Lists(relationOrder, s.graph.relations.Keys)
    && t == Tables(MetaOf(s.graph), ObjectRows(s.graph.objects, objectOrder),
                   RelationRows(s.graph.relations, relationOrder), JournalRows(s.records))
  }

  /** `t` is what a completed save of `s` leaves in the file. */
  ghost predicate Stores(t: Tables, s: Snapshot) {
    exists objectOrder, relationOrder :: StoredAs(t, s, objectOrder, relationOrder)
  }

  // ----- decoding ---------------------------------------------------------------------------

  /** Everything but the entities; the first column that does not read decides the error. */
  function DecodeMeta(m: MetaRows): Result<Graph, StoreError> {
    if m.projectId.None? then Err(NotFound)
    else if m.projectId.value.Garbage? then Err(Corrupt("project_id"))
    else if m.name.None? then Err(MissingRow("name"))
    else if m.schemaVersion.None? then Err(MissingRow("schema_version"))
    else if m.schemaVersion.value.Garbage? then Err(Corrupt("schema_version"))
    else if m.createdAt.None? then Err(MissingRow("created_at"))
    else if m.settings == Some(Garbage) then Err(BadJson)
    else
      Ok(Graph(m.projectId.value.value, m.schemaVersion.value.value,
               if m.createdAt.value.Text? then m.createdAt.value.value else 0, m.name.value,
               map[], map[], if m.settings.Some? then m.settings.value.value else map[]))
  }

  function DecodeObject(row: ObjectRow): Result<Object, StoreError> {
    if row.id.Garbage? then Err(Corrupt("object id"))
    else if row.tags.Garbage? || row.components.Garbage? || row.meta.Garbage? then Err(BadJson)
    else Ok(Object(row.id.value, row.typeId, row.name, row.components.value, row.tags.value, row.meta.value))
  }

  /** Metadata that does not parse is dropped without complaint. */
  function DecodeRelation(row: RelationRow): Result<Relation, StoreError> {
    if row.id.Garbage? then Err(Corrupt("relation id"))
    else if row.from.Garbage? then Err(Corrupt("from id"))
    else if row.to.Garbage? then Err(Corrupt("to id"))
    else if row.properties.Garbage? then Err(BadJson)
    else Ok(Relation(row.id.value, row.typeId, row.from.value, row.to.value, row.properties.value,
                     if row.meta.Some? && row.meta.value.Text? then row.meta.value.value else None))
  }

  function DecodeRecord(row: TxnRow, index: nat): Result<TxnRecord, StoreError> {
    if row.id.Garbage? then Err(Corrupt("txn id"))
    else if row.commands.Garbage? || row.ops.Garbage? then Err(BadJson)
    else Ok(TxnRecord(row.id.value, index, row.actor, row.title, row.startedAt, row.committedAt,
                      row.commands.value, row.ops.value, row.undone != 0))
  }

  /** The row streams; an armed fault fires before the first row is looked at. */
  function ReadObjects(rows: seq<ObjectRow>, fault: bool, acc: map<Id, Object>): Result<map<Id, Object>, StoreError> {
    if rows == [] then Ok(acc)
    else if fault then Err(Injected(LoadObjects))
    else
      var o := DecodeObject(rows[0]);
      if o.Err? then Err(o.error) else ReadObjects(rows[1..], fault, acc[o.value.id := o.value])
  }

  function ReadRelations(rows: seq<RelationRow>, fault: bool, acc: map<Id, Relation>): Result<map<Id, Relation>, StoreError> {
    if rows == [] then Ok(acc)
    else if fault then Err(Injected(LoadRelations))
    else
      var r := DecodeRelation(rows[0]);
      if r.Err? then Err(r.error) else ReadRelations(rows[1..], fault, acc[r.value.id := r.value])
  }

  function ReadJournal(rows: seq<TxnRow>, fault: bool, acc: seq<TxnRecord>): Result<seq<TxnRecord>, StoreError>
    decreases |rows|
  {
    if rows == [] then Ok(acc)
    else if fault then Err(Injected(LoadJournal))
    else
      var rec := DecodeRecord(rows[0], |acc|);
      if rec.Err? then Err(rec.error) else ReadJournal(rows[1..], fault, acc + [rec.value])
  }

  /** Length of the undone suffix. */
  function UndoneTail(records: seq<TxnRecord>): (n: nat)
    ensures n <= |records|
    decreases |records|
  {
    if records != [] && records[|records| - 1].undone then 1 + UndoneTail(records[..|records| - 1]) else 0
  }

  function DecodeFormat(m: MetaRows): nat {
    if m.formatVersion.Some? && m.formatVersion.value.Text? then m.formatVersion.value.value else FORMAT_VERSION
  }

  /** The first phase that fails decides; the cursor is recovered from the `undone` flags. */
  function Assembled(g: Result<Graph, StoreError>, fault: bool, objects: Result<map<Id, Object>, StoreError>,
                     relations: Result<map<Id, Relation>, StoreError>, records: Result<seq<TxnRecord>, StoreError>,
                     format: nat): Result<Snapshot, StoreError>
  {
    if g.Err? then Err(g.error)
    else if fault then Err(Injected(LoadAfterMeta))
    else if objects.Err? then Err(objects.error)
    else if relations.Err? then Err(relations.error)
    else if records.Err? then Err(records.error)
    else Ok(Snapshot(g.value.(objects := objects.value, relations := relations.value), records.value,
                     |records.value| - UndoneTail(records.value), format))
  }

  /** `load`, with the given points armed. */
  function Loaded(t: Tables, armed: seq<FaultPoint>): Result<Snapshot, StoreError> {
    Assembled(DecodeMeta(t.meta), LoadAfterMeta in armed,
              ReadObjects(t.objects, LoadObjects in armed, map[]),
              ReadRelations(t.relations, LoadRelations in armed, map[]),
              ReadJournal(t.journal, LoadJournal in armed, []), DecodeFormat(t.meta))
  }

  // ----- loading what was saved ----------------------------------------------------------------

  ghost predicate KeysAreIds(g: Graph) {
    && (forall i :: i in g.objects ==> g.objects[i].id == i)
    && (forall r :: r in g.relations ==> g.relations[r].id == r)
  }

  function ChosenObjects(objects: map<Id, Object>, order: seq<Id>): map<Id, Object>
    requires forall k :: k in order ==> k in objects
  {
    map k | k in order :: KeptObject(objects[k])
  }

  lemma ChosenObjectsNext(objects: map<Id, Object>, order: seq<Id>, acc: map<Id, Object>)
    requires order != [] && forall k :: k in order ==> k in objects
    ensures acc[order[0] := KeptObject(objects[order[0]])] + ChosenObjects(objects, order[1..]) == acc + ChosenObjects(objects, order)
  {
    assert forall k :: k in order <==> k == order[0] || k in order[1..];
  }

  lemma ObjectRowReadsBack(objects: map<Id, Object>, order: seq<Id>)
    requires order != [] && forall k :: k in order ==> k in objects && objects[k].id == k
    ensures var rows := ObjectRows(objects, order);
            && rows != [] && rows[1..] == ObjectRows(objects, order[1..])
            && DecodeObject(rows[0]) == Ok(KeptObject(objects[order[0]]))
            && KeptObject(objects[order[0]]).id == order[0]
  {
  }

  lemma {:induction false} ObjectsReadBack(objects: map<Id, Object>, order: seq<Id>, acc: map<Id, Object>)
    requires forall k :: k in order ==> k in objects && objects[k].id == k
    ensures ReadObjects(ObjectRows(objects, order), false, acc) == Ok(acc + ChosenObjects(objects, order))
    decreases |order|
  {
    if order == [] {
      assert ChosenObjects(objects, []) == map[] && acc + map[] == acc;
    } else {
      ObjectRowReadsBack(objects, order);
      ObjectsReadBack(objects, order[1..], acc[order[0] := KeptObject(objects[order[0]])]);
      ChosenObjectsNext(objects, order, acc);
    }
  }

  function ChosenRelations(relations: map<Id, Relation>, order: seq<Id>): map<Id, Relation>
    requires forall k :: k in order ==> k in relations
  {
    map k | k in order :: KeptRelation(relations[k])
  }

  lemma ChosenRelationsNext(relations: map<Id, Relation>, order: seq<Id>, acc: map<Id, Relation>)
    requires order != [] && forall k :: k in order ==> k in relations
    ensures acc[order[0] := KeptRelation(relations[order[0]])] + ChosenRelations(relations, order[1..]) == acc + ChosenRelations(relations, order)
  {
    assert forall k :: k in order <==> k == order[0] || k in order[1..];
  }

  lemma RelationRowReadsBack(relations: map<Id, Relation>, order: seq<Id>)
    requires order != [] && forall k :: k in order ==> k in relations && relations[k].id == k
    ensures var rows := RelationRows(relations, order);
            && rows != [] && rows[1..] == RelationRows(relations, order[1..])
            && DecodeRelation(rows[0]) == Ok(KeptRelation(relations[order[0]]))
            && KeptRelation(relations[order[0]]).id == order[0]
  {
  }

  lemma {:induction false} RelationsReadBack(relations: map<Id, Relation>, order: seq<Id>, acc: map<Id, Relation>)
    requires forall k :: k in order ==> k in relations && relations[k].id == k
    ensures ReadRelations(RelationRows(relations, order), false, acc) == Ok(acc + ChosenRelations(relations, order))
    decreases |order|
  {
    if order == [] {
      assert ChosenRelations(relations, []) == map[] && acc + map[] == acc;
    } else {
      RelationRowReadsBack(relations, order);
      RelationsReadBack(relations, order[1..], acc[order[0] := KeptRelation(relations[order[0]])]);
      ChosenRelationsNext(relations, order, acc);
    }
  }

  /** The positions are counted anew while reading. */
  lemma {:induction false} JournalReadsBack(records: seq<TxnRecord>, acc: seq<TxnRecord>)
    requires forall i :: 0 <= i < |records| ==> records[i].index == |acc| + i
    ensures ReadJournal(JournalRows(records), false, acc) == Ok(acc + KeptRecords(records))
    decreases |records|
  {
    var rows := JournalRows(records);
    if records == [] {
      assert acc + KeptRecords(records) == acc;
    } else {
      var rec := KeptRecord(records[0]);
      assert rows[0] == EncodeRecord(records[0]) && rows[1..] == JournalRows(records[1..]);
      assert DecodeRecord(rows[0], |acc|) == Ok(rec);
      JournalReadsBack(records[1..], acc + [rec]);
      assert acc + [rec] + KeptRecords(records[1..]) == acc + KeptRecords(records);
    }
  }

  /** The undone records are exactly a suffix, so its length gives the cursor back. */
  lemma {:induction false} CursorReadsBack(records: seq<TxnRecord>, cursor: nat)
    requires cursor <= |records| && forall i :: 0 <= i < |records| ==> (records[i].undone <==> cursor <= i)
    ensures |records| - UndoneTail(records) == cursor
    decreases |records|
  {
    if records != [] && records[|records| - 1].undone {
      CursorReadsBack(records[..|records| - 1], cursor);
    }
  }

  /**
   Loading what a completed save left gives the saved project and journal with the same cursor,
   up to optional JSON values written as null.
   */
  lemma LoadUndoesSave(t: Tables, s: Snapshot)
    requires Stores(t, s) && KeysAreIds(s.graph) && WellNumbered(s.records, s.cursor)
    ensures Loaded(t, []) == Ok(Kept(s))
  {
    var objectOrder, relationOrder :| StoredAs(t, s, objectOrder, relationOrder);
    ObjectColumnReadsBack(s.graph, objectOrder);
    RelationColumnReadsBack(s.graph, relationOrder);
    JournalReadsBack(s.records, []);
    var records := KeptRecords(s.records);
    assert [] + records == records;
    KeptRecordsUndone(s.records, s.cursor);
    MetaReadsBack(s.graph);
    var g := KeptGraph(s.graph);
    AssembledOk(g.(objects := map[], relations := map[]), g.objects, g.relations, records, s.cursor);
  }

  lemma MetaReadsBack(g: Graph)
    ensures DecodeMeta(MetaOf(g)) == Ok(KeptGraph(g).(objects := map[], relations := map[]))
    ensures DecodeFormat(MetaOf(g)) == FORMAT_VERSION
  {
  }

  lemma AssembledOk(g: Graph, objects: map<Id, Object>, relations: map<Id, Relation>, records: seq<TxnRecord>, cursor: nat)
    requires |records| - UndoneTail(records) == cursor
    ensures Assembled(Ok(g), false, Ok(objects), Ok(relations), Ok(records), FORMAT_VERSION)
         == Ok(Snapshot(g.(objects := objects, relations := relations), records, cursor, FORMAT_VERSION))
  {
  }

  lemma ObjectColumnReadsBack(g: Graph, order: seq<Id>)
    requires KeysAreIds(g) && Lists(order, g.objects.Keys)
    ensures ReadObjects(ObjectRows(g.objects, order), false, map[]) == Ok(KeptGraph(g).objects)
  {
    ObjectsReadBack(g.objects, order, map[]);
    assert map[] + ChosenObjects(g.objects, order) == KeptGraph(g).objects;
  }

  lemma RelationColumnReadsBack(g: Graph, order: seq<Id>)
    requires KeysAreIds(g) && Lists(order, g.relations.Keys)
    ensures ReadRelations(RelationRows(g.relations, order), false, map[]) == Ok(KeptGraph(g).relations)
  {
    RelationsReadBack(g.relations, order, map[]);
    assert map[] + ChosenRelations(g.relations, order) == KeptGraph(g).relations;
  }

  lemma KeptRecordsUndone(records: seq<TxnRecord>, cursor: nat)
    requires WellNumbered(records, cursor)
    ensures |KeptRecords(records)| - UndoneTail(KeptRecords(records)) == cursor
  {
    CursorReadsBack(KeptRecords(records), cursor);
  }

  // ----- when nothing at all is lost ---------------------------------------------------------------

  predicate PlainOption(v: Option<Json>) {
    v.Some? ==> v.value != Null
  }

  predicate PlainObject(o: Object) {
    PlainOption(o.meta.provenance)
  }

  predicate PlainRelation(r: Relation) {
    r.meta.Some? ==> PlainOption(r.meta.value.provenance)
  }

  predicate PlainOp(op: StateOp) {
    match op
    case SetObject(before, after) => (before.Some? ==> PlainObject(before.value)) && (after.Some? ==> PlainObject(after.value))
    case SetRelation(before, after) => (before.Some? ==> PlainRelation(before.value)) && (after.Some? ==> PlainRelation(after.value))
    case SetProjectMeta(_, before, after) => PlainOption(before) && PlainOption(after)
  }

  ghost predicate PlainRecord(rec: TxnRecord) {
    forall i :: 0 <= i < |rec.ops| ==> PlainOp(rec.ops[i])
  }

  predicate PlainGraph(g: Graph) {
    && (forall k :: k in g.objects ==> PlainObject(g.objects[k]))
    && (forall k :: k in g.relations ==> PlainRelation(g.relations[k]))
  }

  /** No optional JSON value anywhere is present and null. */
  ghost predicate PlainSnapshot(s: Snapshot) {
    && PlainGraph(s.graph)
    && (forall i :: 0 <= i < |s.records| ==> PlainRecord(s.records[i]))
  }

  lemma KeptOpExact(op: StateOp)
    ensures KeptOp(op) == op <==> PlainOp(op)
  {
  }

  lemma KeptRecordExact(rec: TxnRecord)
    ensures KeptRecord(rec) == rec <==> PlainRecord(rec)
  {
    forall i | 0 <= i < |rec.ops|
      ensures KeptOps(rec.ops)[i] == rec.ops[i] <==> PlainOp(rec.ops[i])
    {
      KeptOpExact(rec.ops[i]);
    }
    if PlainRecord(rec) {
      assert KeptOps(rec.ops) == rec.ops;
    }
  }

  lemma KeptRecordsExact(records: seq<TxnRecord>)
    ensures KeptRecords(records) == records <==> forall i :: 0 <= i < |records| ==> PlainRecord(records[i])
  {
    forall i | 0 <= i < |records|
      ensures KeptRecords(records)[i] == records[i] <==> PlainRecord(records[i])
    {
      KeptRecordExact(records[i]);
    }
    if forall i :: 0 <= i < |records| ==> PlainRecord(records[i]) {
      assert KeptRecords(records) == records;
    }
  }

  lemma KeptGraphExact(g: Graph)
    requires g.schemaVersion == PROJECT_SCHEMA_VERSION
    ensures KeptGraph(g) == g <==> PlainGraph(g)
  {
    var h := KeptGraph(g);
    assert forall k :: k in g.objects ==> (h.objects[k] == g.objects[k] <==> PlainObject(g.objects[k]));
    assert forall k :: k in g.relations ==> (h.relations[k] == g.relations[k] <==> PlainRelation(g.relations[k]));
    if PlainGraph(g) {
      assert h.objects == g.objects && h.relations == g.relations;
    }
  }

  /** A save followed by a load is the identity exactly when no optional JSON value is null. */
  lemma RoundTripExact(t: Tables, s: Snapshot)
    requires Stores(t, s) && KeysAreIds(s.graph) && WellNumbered(s.records, s.cursor)
    requires s.graph.schemaVersion == PROJECT_SCHEMA_VERSION && s.formatVersion == FORMAT_VERSION
    ensures Loaded(t, []) == Ok(s) <==> PlainSnapshot(s)
  {
    LoadUndoesSave(t, s);
    KeptGraphExact(s.graph);
    KeptRecordsExact(s.records);
  }
}
