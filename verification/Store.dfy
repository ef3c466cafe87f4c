/** The snapshot store: full-snapshot saves in one database transaction, and one-shot faults. */
module ProjectStore {
  import opened Prelude
  import opened ProjectGraph
  import opened Context
  import opened HistoryLog
  import opened StoreRows

  // ----- fault injection --------------------------------------------------------------

  /** Drop the first occurrence. */
  function Without(armed: seq<FaultPoint>, p: FaultPoint): seq<FaultPoint> {
    if armed == [] then [] else if armed[0] == p then armed[1..] else [armed[0]] + Without(armed[1..], p)
  }

  lemma {:induction false} WithoutOne(armed: seq<FaultPoint>, p: FaultPoint)
    ensures multiset(Without(armed, p)) == multiset(armed) - multiset{p}
    decreases |armed|
  {
    if armed != [] {
      assert armed == [armed[0]] + armed[1..];
      WithoutOne(armed[1..], p);
    }
  }

  class FaultInjector {
    var armed: seq<FaultPoint>

    constructor ()
      ensures armed == []
    {
      armed := [];
    }

    method Arm(p: FaultPoint)
      modifies this
      ensures armed == old(armed) + [p]
    {
      armed := armed + [p];
    }

    method Clear()
      modifies this
      ensures armed == []
    {
      armed := [];
    }

    /** Fire if armed, and then disarm that one occurrence. */
    method Check(p: FaultPoint) returns (fired: bool)
      modifies this
      ensures fired == (p in old(armed))
      ensures armed == if fired then Without(old(armed), p) else old(armed)
    {
      for i := 0 to |armed|
        invariant armed == old(armed) && p !in armed[..i]
      {
        if armed[i] == p {
          WithoutAt(armed, p, i);
          armed := armed[..i] + armed[i + 1..];
          return true;
        }
        assert armed[..i + 1] == armed[..i] + [armed[i]];
      }
      assert armed[..|armed|] == armed;
      return false;
    }
  }

  lemma {:induction false} WithoutAt(armed: seq<FaultPoint>, p: FaultPoint, i: nat)
    requires i < |armed| && armed[i] == p && p !in armed[..i]
    ensures Without(armed, p) == armed[..i] + armed[i + 1..]
    decreases |armed|
  {
    if i > 0 {
      assert armed[0] in armed[..i];
      assert armed[1..][..i - 1] == armed[..i][1..];
      WithoutAt(armed[1..], p, i - 1);
      assert armed[..i] == [armed[0]] + armed[1..][..i - 1];
    }
  }

  /** A save fails at the first armed point it passes, in this order. */
  function SaveOutcome(armed: seq<FaultPoint>): Result<(), StoreError> {
    if SaveAfterWipe in armed then Err(Injected(SaveAfterWipe))
    else if SaveAfterMeta in armed then Err(Injected(SaveAfterMeta))
    else if SaveAfterObjects in armed then Err(Injected(SaveAfterObjects))
    else if SaveAfterRelations in armed then Err(Injected(SaveAfterRelations))
    else CommitOutcome(armed)
  }

  function CommitOutcome(armed: seq<FaultPoint>): Result<(), StoreError> {
    if SaveAfterJournal in armed then Err(Injected(SaveAfterJournal))
    else if SaveBeforeCommit in armed then Err(Injected(SaveBeforeCommit))
    else if SaveAfterCommit in armed then Err(Injected(SaveAfterCommit))
    else Ok(())
  }

  /** A fault that fired is armed no longer. */
  function Spent<T>(armed: seq<FaultPoint>, r: Result<T, StoreError>): seq<FaultPoint> {
    if r.Err? && r.error.Injected? then Without(armed, r.error.point) else armed
  }

  /** Did the transaction commit, acknowledged or not? */
  predicate Landed(r: Result<(), StoreError>) {
    r.Ok? || r.error == Injected(SaveAfterCommit)
  }

  // ----- the store ------------------------------------------------------------------------

  class Store {
    /** What a reader, or a process that reopens the file, finds. */
    var disk: Tables
    const faults: FaultInjector

    constructor ()
      ensures disk == EMPTY && fresh(faults) && faults.armed == []
    {
      disk := EMPTY;
      faults := new FaultInjector();
    }

    /**
     All or nothing: a fault before the commit leaves the file as it was, one after the commit
     leaves the complete new snapshot although the caller is told of an error.
     */
    method Save(s: Snapshot) returns (r: Result<(), StoreError>)
      modifies this, faults
      ensures KeysAreIds(s.graph) ==> r == SaveOutcome(old(faults.armed))
      ensures faults.armed == Spent(old(faults.armed), r)
      ensures Landed(r) ==> Stores(disk, s)
      ensures !Landed(r) ==> disk == old(disk)
    {
      var staged := EMPTY;
      var fired := faults.Check(SaveAfterWipe);
      if fired { return Err(Injected(SaveAfterWipe)); }
      staged := staged.(meta := MetaOf(s.graph));
      fired := faults.Check(SaveAfterMeta);
      if fired { return Err(Injected(SaveAfterMeta)); }
      var objectRows, objectOrder, unique := InsertObjects(s.graph.objects);
      if !unique { return Err(DuplicateKey); }
      staged := staged.(objects := objectRows);
      fired := faults.Check(SaveAfterObjects);
      if fired { return Err(Injected(SaveAfterObjects)); }
      var relationRows, relationOrder, distinct := InsertRelations(s.graph.relations);
      if !distinct { return Err(DuplicateKey); }
      staged := staged.(relations := relationRows);
      fired := faults.Check(SaveAfterRelations);
      if fired { return Err(Injected(SaveAfterRelations)); }
      var rows := InsertJournal(s.records);
      staged := staged.(journal := rows);
      assert StoredAs(staged, s, objectOrder, relationOrder);
      r := CommitStaged(staged);
    }

    /** The end of a save, from the last staged row on. */
    method CommitStaged(staged: Tables) returns (r: Result<(), StoreError>)
      modifies this, faults
      ensures r == CommitOutcome(old(faults.armed))
      ensures faults.armed == Spent(old(faults.armed), r)
      ensures disk == if Landed(r) then staged else old(disk)
    {
      var fired := faults.Check(SaveAfterJournal);
      if fired { return Err(Injected(SaveAfterJournal)); }
      fired := faults.Check(SaveBeforeCommit);
      if fired { return Err(Injected(SaveBeforeCommit)); }
      disk := staged;
      fired := faults.Check(SaveAfterCommit);
      if fired { return Err(Injected(SaveAfterCommit)); }
      return Ok(());
    }

    /** One row for each object; the primary key turns a second row with the same id away. */
    method InsertObjects(objects: map<Id, Object>) returns (rows: seq<ObjectRow>, order: seq<Id>, ok: bool)
      ensures ok ==> Lists(order, objects.Keys) && rows == ObjectRows(objects, order)
      ensures (forall k :: k in objects ==> objects[k].id == k) ==> ok
    {
      order := Enumerate(objects.Keys);
      rows := [];
      for i := 0 to |order|
        invariant |rows| == i
        invariant forall j :: 0 <= j < i ==> rows[j] == EncodeObject(objects[order[j]])
      {
        var row := EncodeObject(objects[order[i]]);
        if exists j :: 0 <= j < |rows| && rows[j].id == row.id {
          return rows, order, false;
        }
        rows := rows + [row];
      }
      return rows, order, true;
    }

    method InsertRelations(relations: map<Id, Relation>) returns (rows: seq<RelationRow>, order: seq<Id>, ok: bool)
      ensures ok ==> Lists(order, relations.Keys) && rows == RelationRows(relations, order)
      ensures (forall k :: k in relations ==> relations[k].id == k) ==> ok
    {
      order := Enumerate(relations.Keys);
      rows := [];
      for i := 0 to |order|
        invariant |rows| == i
        invariant forall j :: 0 <= j < i ==> rows[j] == EncodeRelation(relations[order[j]])
      {
        var row := EncodeRelation(relations[order[i]]);
        if exists j :: 0 <= j < |rows| && rows[j].id == row.id {
          return rows, order, false;
        }
        rows := rows + [row];
      }
      return rows, order, true;
    }

    method InsertJournal(records: seq<TxnRecord>) returns (rows: seq<TxnRow>)
      ensures rows == JournalRows(records)
    {
      rows := [];
      for i := 0 to |records|
        invariant |rows| == i
        invariant forall j :: 0 <= j < i ==> rows[j] == EncodeRecord(records[j])
      {
        rows := rows + [EncodeRecord(records[i])];
      }
    }

    method Load() returns (r: Result<Snapshot, StoreError>)
      modifies faults
      ensures r == Loaded(disk, old(faults.armed))
      ensures faults.armed == Spent(old(faults.armed), r)
    {
      var g := DecodeMeta(disk.meta);
      if g.Err? { return Err(g.error); }
      var fired := faults.Check(LoadAfterMeta);
      if fired { return Err(Injected(LoadAfterMeta)); }
      var objects := LoadObjectRows(disk.objects);
      if objects.Err? { return Err(objects.error); }
      var relations := LoadRelationRows(disk.relations);
      if relations.Err? { return Err(relations.error); }
      var records := LoadJournalRows(disk.journal);
      if records.Err? { return Err(records.error); }
      var tail := CountUndone(records.value);
      return Ok(Snapshot(g.value.(objects := objects.value, relations := relations.value), records.value,
                         |records.value| - tail, DecodeFormat(disk.meta)));
    }

    method LoadObjectRows(rows: seq<ObjectRow>) returns (r: Result<map<Id, Object>, StoreError>)
      modifies faults
      ensures r == ReadObjects(rows, LoadObjects in old(faults.armed), map[])
      ensures faults.armed == Spent(old(faults.armed), r)
    {
      var objects: map<Id, Object> := map[];
      ghost var fault := LoadObjects in faults.armed;
      ghost var whole := ReadObjects(rows, fault, map[]);
      var i := 0;
      assert rows[0..] == rows;
      while i < |rows|
        invariant 0 <= i <= |rows| && faults.armed == old(faults.armed)
        invariant whole == ReadObjects(rows[i..], fault, objects)
      {
        assert rows[i..][0] == rows[i] && rows[i..][1..] == rows[i + 1..];
        var fired := faults.Check(LoadObjects);
        if fired { return Err(Injected(LoadObjects)); }
        var o := DecodeObject(rows[i]);
        if o.Err? { return Err(o.error); }
        objects := objects[o.value.id := o.value];
        i := i + 1;
      }
      assert rows[i..] == [];
      return Ok(objects);
    }

    method LoadRelationRows(rows: seq<RelationRow>) returns (r: Result<map<Id, Relation>, StoreError>)
      modifies faults
      ensures r == ReadRelations(rows, LoadRelations in old(faults.armed), map[])
      ensures faults.armed == Spent(old(faults.armed), r)
    {
      var relations: map<Id, Relation> := map[];
      ghost var fault := LoadRelations in faults.armed;
      ghost var whole := ReadRelations(rows, fault, map[]);
      var i := 0;
      assert rows[0..] == rows;
      while i < |rows|
        invariant 0 <= i <= |rows| && faults.armed == old(faults.armed)
        invariant whole == ReadRelations(rows[i..], fault, relations)
      {
        assert rows[i..][0] == rows[i] && rows[i..][1..] == rows[i + 1..];
        var fired := faults.Check(LoadRelations);
        if fired { return Err(Injected(LoadRelations)); }
        var rel := DecodeRelation(rows[i]);
        if rel.Err? { return Err(rel.error); }
        relations := relations[rel.value.id := rel.value];
        i := i + 1;
      }
      assert rows[i..] == [];
      return Ok(relations);
    }

    method LoadJournalRows(rows: seq<TxnRow>) returns (r: Result<seq<TxnRecord>, StoreError>)
      modifies faults
      ensures r == ReadJournal(rows, LoadJournal in old(faults.armed), [])
      ensures faults.armed == Spent(old(faults.armed), r)
    {
      var records: seq<TxnRecord> := [];
      ghost var fault := LoadJournal in faults.armed;
      ghost var whole := ReadJournal(rows, fault, []);
      var i := 0;
      assert rows[0..] == rows;
      while i < |rows|
        invariant 0 <= i <= |rows| && faults.armed == old(faults.armed)
        invariant whole == ReadJournal(rows[i..], fault, records)
      {
        assert rows[i..][0] == rows[i] && rows[i..][1..] == rows[i + 1..];
        var fired := faults.Check(LoadJournal);
        if fired { return Err(Injected(LoadJournal)); }
        var rec := DecodeRecord(rows[i], |records|);
        if rec.Err? { return Err(rec.error); }
        records := records + [rec.value];
        i := i + 1;
      }
      assert rows[i..] == [];
      return Ok(records);
    }

    method CountUndone(records: seq<TxnRecord>) returns (n: nat)
      ensures n == UndoneTail(records)
    {
      n := 0;
      assert records[..|records|] == records;
      while n < |records| && records[|records| - 1 - n].undone
        invariant 0 <= n <= |records|
        invariant UndoneTail(records) == n + UndoneTail(records[..|records| - n])
      {
        var front := records[..|records| - n];
        assert front[..|front| - 1] == records[..|records| - n - 1];
        n := n + 1;
      }
    }
  }
}
