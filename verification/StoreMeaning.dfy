/** Which files load, and what each row of such a file becomes. */
module StoreMeaning {
  import opened Prelude
  import opened ProjectGraph
  import opened HistoryLog
  import opened StoreRows
  import opened ProjectStore

  predicate Parses<T>(c: Cell<T>) {
    c.Text?
  }

  predicate ParsesIn<T>(c: Option<Cell<T>>) {
    c.Some? && c.value.Text?
  }

  /** The key/value rows that have to be there; settings may be missing, and a creation time may be nonsense. */
  predicate MetaReadable(m: MetaRows) {
    && ParsesIn(m.projectId) && m.name.Some? && ParsesIn(m.schemaVersion) && m.createdAt.Some?
    && (m.settings.Some? ==> m.settings.value.Text?)
  }

  predicate ObjectReadable(row: ObjectRow) {
    Parses(row.id) && Parses(row.tags) && Parses(row.components) && Parses(row.meta)
  }

  /** The metadata of a relation does not have to parse. */
  predicate RelationReadable(row: RelationRow) {
    Parses(row.id) && Parses(row.from) && Parses(row.to) && Parses(row.properties)
  }

  predicate RecordReadable(row: TxnRow) {
    Parses(row.id) && Parses(row.commands) && Parses(row.ops)
  }

  predicate Readable(t: Tables) {
    && MetaReadable(t.meta)
    && AllObjects(t.objects) && AllRelations(t.relations) && AllRecords(t.journal)
  }

  predicate AllObjects(rows: seq<ObjectRow>) {
    forall i :: 0 <= i < |rows| ==> ObjectReadable(rows[i])
  }

  predicate AllRelations(rows: seq<RelationRow>) {
    forall i :: 0 <= i < |rows| ==> RelationReadable(rows[i])
  }

  predicate AllRecords(rows: seq<TxnRow>) {
    forall i :: 0 <= i < |rows| ==> RecordReadable(rows[i])
  }

  // ----- rows ----------------------------------------------------------------------------------

  predicate ObjectOf(row: ObjectRow, o: Object) {
    && row.id == Text(o.id) && row.typeId == o.typeId && row.name == o.name
    && row.tags == Text(o.tags) && row.components == Text(o.components) && row.meta == Text(o.meta)
  }

  predicate RelationOf(row: RelationRow, r: Relation) {
    && row.id == Text(r.id) && row.typeId == r.typeId && row.from == Text(r.from) && row.to == Text(r.to)
    && row.properties == Text(r.properties)
    && (r.meta.Some? ==> row.meta == Some(Text(r.meta)))
    && (r.meta.None? ==> row.meta == None || row.meta == Some(Garbage) || row.meta == Some(Text(None)))
  }

  predicate RecordOf(row: TxnRow, index: nat, rec: TxnRecord) {
    && row.id == Text(rec.id) && row.actor == rec.actor && row.title == rec.title
    && row.startedAt == rec.startedAt && row.committedAt == rec.committedAt
    && row.commands == Text(rec.commands) && row.ops == Text(rec.ops)
    && rec.index == index && (rec.undone <==> row.undone != 0)
  }

  /** Row `i` is the last one for its object. */
  predicate LastObject(rows: seq<ObjectRow>, i: nat)
    requires i < |rows|
  {
    forall j :: i < j < |rows| ==> rows[j].id != rows[i].id
  }

  predicate LastRelation(rows: seq<RelationRow>, i: nat)
    requires i < |rows|
  {
    forall j :: i < j < |rows| ==> rows[j].id != rows[i].id
  }

  /** Every object is that of the last row for it, and every row has its object. */
  ghost predicate ObjectsOf(rows: seq<ObjectRow>, objects: map<Id, Object>) {
    && (forall i :: 0 <= i < |rows| ==> rows[i].id.Text? && rows[i].id.value in objects)
    && (forall k :: k in objects ==> exists i :: 0 <= i < |rows| && rows[i].id == Text(k))
    && (forall i :: 0 <= i < |rows| && LastObject(rows, i) ==> ObjectOf(rows[i], objects[rows[i].id.value]))
  }

  ghost predicate RelationsOf(rows: seq<RelationRow>, relations: map<Id, Relation>) {
    && (forall i :: 0 <= i < |rows| ==> rows[i].id.Text? && rows[i].id.value in relations)
    && (forall k :: k in relations ==> exists i :: 0 <= i < |rows| && rows[i].id == Text(k))
    && (forall i :: 0 <= i < |rows| && LastRelation(rows, i) ==> RelationOf(rows[i], relations[rows[i].id.value]))
  }

  ghost predicate RecordsOf(rows: seq<TxnRow>, records: seq<TxnRecord>) {
    |records| == |rows| && forall i :: 0 <= i < |rows| ==> RecordOf(rows[i], i, records[i])
  }

  lemma ObjectsOfMore(done: seq<ObjectRow>, objects: map<Id, Object>, row: ObjectRow, o: Object)
    requires ObjectsOf(done, objects) && ObjectOf(row, o)
    ensures ObjectsOf(done + [row], objects[o.id := o])
  {
    var rows, more := done + [row], objects[o.id := o];
    forall k | k in more
      ensures exists i :: 0 <= i < |rows| && rows[i].id == Text(k)
    {
      if k == o.id {
        assert rows[|done|].id == Text(k);
      } else {
        var i :| 0 <= i < |done| && done[i].id == Text(k);
        assert rows[i].id == Text(k);
      }
    }
    forall i | 0 <= i < |rows| && LastObject(rows, i)
      ensures ObjectOf(rows[i], more[rows[i].id.value])
    {
      if i < |done| {
        assert rows[|done|].id != rows[i].id;
        assert forall j :: i < j < |done| ==> rows[j] == done[j];
        assert LastObject(done, i);
      }
    }
  }

  lemma OneMoved<T>(done: seq<T>, rows: seq<T>)
    requires rows != []
    ensures done + [rows[0]] + rows[1..] == done + rows
  {
  }

  lemma RelationsOfMore(done: seq<RelationRow>, relations: map<Id, Relation>, row: RelationRow, r: Relation)
    requires RelationsOf(done, relations) && RelationOf(row, r)
    ensures RelationsOf(done + [row], relations[r.id := r])
  {
    var rows, more := done + [row], relations[r.id := r];
    forall k | k in more
      ensures exists i :: 0 <= i < |rows| && rows[i].id == Text(k)
    {
      if k == r.id {
        assert rows[|done|].id == Text(k);
      } else {
        var i :| 0 <= i < |done| && done[i].id == Text(k);
        assert rows[i].id == Text(k);
      }
    }
    forall i | 0 <= i < |rows| && LastRelation(rows, i)
      ensures RelationOf(rows[i], more[rows[i].id.value])
    {
      if i < |done| {
        assert rows[|done|].id != rows[i].id;
        assert forall j :: i < j < |done| ==> rows[j] == done[j];
        assert LastRelation(done, i);
      }
    }
  }

  lemma AllObjectsSplit(rows: seq<ObjectRow>)
    requires rows != []
    ensures AllObjects(rows) <==> ObjectReadable(rows[0]) && AllObjects(rows[1..])
  {
    assert rows == [rows[0]] + rows[1..];
  }

  lemma ObjectDecodes(row: ObjectRow)
    ensures DecodeObject(row).Ok? <==> ObjectReadable(row)
    ensures DecodeObject(row).Ok? ==> ObjectOf(row, DecodeObject(row).value)
  {
  }

  lemma ObjectNext(rows: seq<ObjectRow>, acc: map<Id, Object>)
    ensures rows == [] ==> ReadObjects(rows, false, acc) == Ok(acc)
    ensures rows != [] && DecodeObject(rows[0]).Err? ==> ReadObjects(rows, false, acc).Err?
    ensures rows != [] && DecodeObject(rows[0]).Ok? ==>
      var o := DecodeObject(rows[0]).value;
      ReadObjects(rows, false, acc) == ReadObjects(rows[1..], false, acc[o.id := o])
  {
  }

  lemma {:induction false} ObjectsRead(done: seq<ObjectRow>, rows: seq<ObjectRow>, acc: map<Id, Object>)
    requires ObjectsOf(done, acc)
    ensures ReadObjects(rows, false, acc).Ok? <==> AllObjects(rows)
    ensures ReadObjects(rows, false, acc).Ok? ==> ObjectsOf(done + rows, ReadObjects(rows, false, acc).value)
    decreases |rows|
  {
    hide ReadObjects;
    ObjectNext(rows, acc);
    if rows == [] {
      assert done + rows == done;
    } else {
      hide DecodeObject, ObjectOf, ObjectReadable, ObjectsOf, AllObjects;
      ObjectDecodes(rows[0]);
      AllObjectsSplit(rows);
      var o := DecodeObject(rows[0]);
      if o.Ok? {
        ObjectsOfMore(done, acc, rows[0], o.value);
        ObjectsRead(done + [rows[0]], rows[1..], acc[o.value.id := o.value]);
        OneMoved(done, rows);
      }
    }
  }

  lemma AllRelationsSplit(rows: seq<RelationRow>)
    requires rows != []
    ensures AllRelations(rows) <==> RelationReadable(rows[0]) && AllRelations(rows[1..])
  {
    assert rows == [rows[0]] + rows[1..];
  }

  lemma RelationDecodes(row: RelationRow)
    ensures DecodeRelation(row).Ok? <==> RelationReadable(row)
    ensures DecodeRelation(row).Ok? ==> RelationOf(row, DecodeRelation(row).value)
  {
  }

  lemma RelationNext(rows: seq<RelationRow>, acc: map<Id, Relation>)
    ensures rows == [] ==> ReadRelations(rows, false, acc) == Ok(acc)
    ensures rows != [] && DecodeRelation(rows[0]).Err? ==> ReadRelations(rows, false, acc).Err?
    ensures rows != [] && DecodeRelation(rows[0]).Ok? ==>
      var r := DecodeRelation(rows[0]).value;
      ReadRelations(rows, false, acc) == ReadRelations(rows[1..], false, acc[r.id := r])
  {
  }

  lemma {:induction false} RelationsRead(done: seq<RelationRow>, rows: seq<RelationRow>, acc: map<Id, Relation>)
    requires RelationsOf(done, acc)
    ensures ReadRelations(rows, false, acc).Ok? <==> AllRelations(rows)
    ensures ReadRelations(rows, false, acc).Ok? ==> RelationsOf(done + rows, ReadRelations(rows, false, acc).value)
    decreases |rows|
  {
    hide ReadRelations;
    RelationNext(rows, acc);
    if rows == [] {
      assert done + rows == done;
    } else {
      hide DecodeRelation, RelationOf, RelationReadable, RelationsOf, AllRelations;
      RelationDecodes(rows[0]);
      AllRelationsSplit(rows);
      var r := DecodeRelation(rows[0]);
      if r.Ok? {
        RelationsOfMore(done, acc, rows[0], r.value);
        RelationsRead(done + [rows[0]], rows[1..], acc[r.value.id := r.value]);
        OneMoved(done, rows);
      }
    }
  }

  lemma {:induction false} RecordsRead(done: seq<TxnRow>, rows: seq<TxnRow>, acc: seq<TxnRecord>)
    requires RecordsOf(done, acc)
    ensures ReadJournal(rows, false, acc).Ok? <==> AllRecords(rows)
    ensures ReadJournal(rows, false, acc).Ok? ==> RecordsOf(done + rows, ReadJournal(rows, false, acc).value)
    decreases |rows|
  {
    if rows == [] {
      assert done + rows == done;
    } else {
      var rec := DecodeRecord(rows[0], |acc|);
      assert rec.Ok? <==> RecordReadable(rows[0]);
      if rec.Ok? {
        RecordsRead(done + [rows[0]], rows[1..], acc + [rec.value]);
        assert done + [rows[0]] + rows[1..] == done + rows;
      }
    }
  }

  // ----- files ---------------------------------------------------------------------------------

  /** Everything in front of the cursor ends with a record that is not undone; everything behind it is. */
  predicate CursorOf(records: seq<TxnRecord>, cursor: nat) {
    && cursor <= |records|
    && (cursor > 0 ==> !records[cursor - 1].undone)
    && forall i :: cursor <= i < |records| ==> records[i].undone
  }

  lemma {:induction false} TailMeans(records: seq<TxnRecord>)
    ensures CursorOf(records, |records| - UndoneTail(records))
    decreases |records|
  {
    if records != [] && records[|records| - 1].undone {
      var n := |records| - 1;
      TailMeans(records[..n]);
      assert forall i :: 0 <= i < n ==> records[..n][i] == records[i];
    }
  }

  predicate HeaderOf(m: MetaRows, g: Graph, format: nat) {
    && m.projectId == Some(Text(g.id)) && m.name == Some(g.name) && m.schemaVersion == Some(Text(g.schemaVersion))
    && (m.createdAt == Some(Text(g.createdAt)) || (m.createdAt == Some(Garbage) && g.createdAt == 0))
    && (m.settings == Some(Text(g.settings)) || (m.settings == None && g.settings == map[]))
    && (m.formatVersion == Some(Text(format)) || ((m.formatVersion == None || m.formatVersion == Some(Garbage)) && format == 1))
  }

  lemma HeaderReads(m: MetaRows)
    ensures DecodeMeta(m).Ok? <==> MetaReadable(m)
    ensures DecodeMeta(m).Ok? ==> HeaderOf(m, DecodeMeta(m).value, DecodeFormat(m))
  {
  }

  lemma HeaderKeeps(m: MetaRows, g: Graph, objects: map<Id, Object>, relations: map<Id, Relation>, format: nat)
    requires HeaderOf(m, g, format)
    ensures HeaderOf(m, g.(objects := objects, relations := relations), format)
  {
  }

  lemma ObjectColumn(rows: seq<ObjectRow>)
    ensures ReadObjects(rows, false, map[]).Ok? <==> AllObjects(rows)
    ensures ReadObjects(rows, false, map[]).Ok? ==> ObjectsOf(rows, ReadObjects(rows, false, map[]).value)
  {
    ObjectsRead([], rows, map[]);
    assert [] + rows == rows;
  }

  lemma RelationColumn(rows: seq<RelationRow>)
    ensures ReadRelations(rows, false, map[]).Ok? <==> AllRelations(rows)
    ensures ReadRelations(rows, false, map[]).Ok? ==> RelationsOf(rows, ReadRelations(rows, false, map[]).value)
  {
    RelationsRead([], rows, map[]);
    assert [] + rows == rows;
  }

  lemma JournalColumn(rows: seq<TxnRow>)
    ensures ReadJournal(rows, false, []).Ok? <==> AllRecords(rows)
    ensures ReadJournal(rows, false, []).Ok? ==> RecordsOf(rows, ReadJournal(rows, false, []).value)
  {
    RecordsRead([], rows, []);
    assert [] + rows == rows;
  }

  /**
   A file loads if and only if every column that has to parse does. What it loads as is told
   row by row, the last row for an id deciding, and the cursor stands behind the last record
   that is not undone.
   */
  lemma LoadMeans(t: Tables)
    ensures Loaded(t, []).Ok? <==> Readable(t)
    ensures Loaded(t, []).Ok? ==>
      var s := Loaded(t, []).value;
      && HeaderOf(t.meta, s.graph, s.formatVersion)
      && ObjectsOf(t.objects, s.graph.objects) && RelationsOf(t.relations, s.graph.relations)
      && RecordsOf(t.journal, s.records) && CursorOf(s.records, s.cursor)
  {
    hide HeaderOf, MetaReadable, ObjectsOf, RelationsOf, RecordsOf, CursorOf, AllObjects, AllRelations, AllRecords,
      DecodeMeta, DecodeFormat, ReadObjects, ReadRelations, ReadJournal, UndoneTail;
    HeaderReads(t.meta);
    ObjectColumn(t.objects);
    RelationColumn(t.relations);
    JournalColumn(t.journal);
    assert LoadAfterMeta !in [] && LoadObjects !in [] && LoadRelations !in [] && LoadJournal !in [];
    var g, objects, relations, records :=
      DecodeMeta(t.meta), ReadObjects(t.objects, false, map[]), ReadRelations(t.relations, false, map[]), ReadJournal(t.journal, false, []);
    assert Loaded(t, []) == Assembled(g, false, objects, relations, records, DecodeFormat(t.meta));
    if g.Ok? && objects.Ok? && relations.Ok? && records.Ok? {
      TailMeans(records.value);
      HeaderKeeps(t.meta, g.value, objects.value, relations.value, DecodeFormat(t.meta));
    }
  }

  // ----- faults --------------------------------------------------------------------------------

  /** The points a save passes, in order. */
  function SavePoints(): seq<FaultPoint> {
    [SaveAfterWipe, SaveAfterMeta, SaveAfterObjects, SaveAfterRelations, SaveAfterJournal, SaveBeforeCommit, SaveAfterCommit]
  }

  /** The first of them that is armed is the error; without one the save succeeds. */
  lemma FirstArmedDecides(armed: seq<FaultPoint>, i: nat)
    requires i <= 7 && forall j :: 0 <= j < i ==> SavePoints()[j] !in armed
    ensures i < 7 && SavePoints()[i] in armed ==> SaveOutcome(armed) == Err(Injected(SavePoints()[i]))
    ensures i == 7 ==> SaveOutcome(armed) == Ok(())
  {
    var points := SavePoints();
    assert 0 < i ==> points[0] !in armed;
    assert 1 < i ==> points[1] !in armed;
    assert 2 < i ==> points[2] !in armed;
    assert 3 < i ==> points[3] !in armed;
    assert 4 < i ==> points[4] !in armed;
    assert 5 < i ==> points[5] !in armed;
    assert 6 < i ==> points[6] !in armed;
  }

  /** An armed fault on loading fires where it stands, and only if loading gets there. */
  lemma LoadFaults(t: Tables, armed: seq<FaultPoint>)
    requires Readable(t)
    ensures Loaded(t, armed) ==
      if LoadAfterMeta in armed then Err(Injected(LoadAfterMeta))
      else if LoadObjects in armed && t.objects != [] then Err(Injected(LoadObjects))
      else if LoadRelations in armed && t.relations != [] then Err(Injected(LoadRelations))
      else if LoadJournal in armed && t.journal != [] then Err(Injected(LoadJournal))
      else Loaded(t, [])
  {
    hide MetaReadable, ObjectsOf, RelationsOf, RecordsOf, AllObjects, AllRelations, AllRecords, HeaderOf, DecodeMeta, DecodeFormat, UndoneTail;
    HeaderReads(t.meta);
    ObjectColumn(t.objects);
    RelationColumn(t.relations);
    JournalColumn(t.journal);
  }
}
