/** The transaction journal with linear undo and redo. */
module HistoryLog {
  import opened Prelude
  import opened ProjectGraph
  import opened Journal
  import opened Context

  datatype TxnRecord = TxnRecord(
    id: Id, index: nat, actor: string, title: string, startedAt: int, committedAt: int,
    commands: seq<CommandRecord>, ops: seq<StateOp>, undone: bool)

  function Finish(t: Txn, index: nat, now: int): TxnRecord {
    TxnRecord(t.id, index, t.actor, t.title, t.startedAt, now, t.commands, t.ops, false)
  }

  /** All recorded ops, in order. */
  function AllOps(records: seq<TxnRecord>): seq<StateOp> {
    if records == [] then [] else records[0].ops + AllOps(records[1..])
  }

  lemma {:induction false} AllOpsConcat(a: seq<TxnRecord>, b: seq<TxnRecord>)
    ensures AllOps(a + b) == AllOps(a) + AllOps(b)
  {
    if a == [] {
      assert a + b == b;
    } else {
      assert (a + b)[0] == a[0] && (a + b)[1..] == a[1..] + b;
      AllOpsConcat(a[1..], b);
    }
  }

  lemma AllOpsSingle(rec: TxnRecord)
    ensures AllOps([rec]) == rec.ops
  {
    assert [rec][1..] == [];
    assert AllOps([rec]) == rec.ops + [];
  }

  lemma AllOpsSplice(front: seq<TxnRecord>, rec: TxnRecord, back: seq<TxnRecord>)
    ensures AllOps(front + [rec]) == AllOps(front) + rec.ops
    ensures AllOps(front + [rec] + back) == AllOps(front) + rec.ops + AllOps(back)
  {
    AllOpsSingle(rec);
    AllOpsConcat(front, [rec]);
    AllOpsConcat(front + [rec], back);
  }

  lemma Spliced(records: seq<TxnRecord>, k: nat)
    requires k < |records|
    ensures records[..k + 1] == records[..k] + [records[k]]
    ensures records == records[..k] + [records[k]] + records[k + 1..]
  {
  }

  lemma AllOpsOne(records: seq<TxnRecord>, k: nat)
    requires k < |records|
    ensures AllOps(records[..k + 1]) == AllOps(records[..k]) + records[k].ops
    ensures AllOps(records) == AllOps(records[..k]) + records[k].ops + AllOps(records[k + 1..])
  {
    Spliced(records, k);
    AllOpsSplice(records[..k], records[k], records[k + 1..]);
  }

  lemma {:induction false} AllOpsSame(a: seq<TxnRecord>, b: seq<TxnRecord>)
    requires |a| == |b| && forall i :: 0 <= i < |a| ==> a[i].ops == b[i].ops
    ensures AllOps(a) == AllOps(b)
  {
    if a != [] {
      AllOpsSame(a[1..], b[1..]);
    }
  }

  /** Positions are contiguous and exactly the records from the cursor on are undone. */
  ghost predicate WellNumbered(records: seq<TxnRecord>, cursor: nat) {
    && cursor <= |records|
    && forall i :: 0 <= i < |records| ==> records[i].index == i && (records[i].undone <==> cursor <= i)
  }

  function Pushed(records: seq<TxnRecord>, cursor: nat, rec: TxnRecord): seq<TxnRecord>
    requires cursor <= |records|
  {
    records[..cursor] + [rec.(index := cursor)]
  }

  class History {
    var records: seq<TxnRecord>
    var cursor: nat

    ghost predicate Valid()
      reads this
    {
      cursor <= |records|
    }

    constructor ()
      ensures records == [] && cursor == 0 && Valid()
    {
      records, cursor := [], 0;
    }

    constructor FromRecords(records: seq<TxnRecord>, cursor: nat)
      ensures this.records == records && this.cursor == cursor
    {
      this.records, this.cursor := records, cursor;
    }

    /** Append a committed transaction, dropping any redo tail and renumbering the record. */
    method Push(rec: TxnRecord)
      requires Valid()
      modifies this
      ensures Valid() && records == Pushed(old(records), old(cursor), rec) && cursor == old(cursor) + 1
    {
      if cursor < |records| {
        records := records[..cursor];
      }
      records := records + [rec.(index := cursor)];
      cursor := |records|;
    }

    method Undo(project: Project) returns (r: Option<Id>)
      requires Valid()
      modifies this, project
      ensures Valid()
      ensures old(cursor) == 0 ==>
        r == None && records == old(records) && cursor == 0 && project.State() == old(project.State())
      ensures old(cursor) > 0 ==>
        && r == Some(old(records)[old(cursor) - 1].id) && cursor == old(cursor) - 1
        && records == old(records)[cursor := old(records)[cursor].(undone := true)]
        && project.State() == Backward(old(project.State()), old(records)[cursor].ops)
    {
      if cursor == 0 {
        return None;
      }
      var idx := cursor - 1;
      RevertOps(project, records[idx].ops);
      r := Some(records[idx].id);
      records := records[idx := records[idx].(undone := true)];
      cursor := idx;
    }

    method Redo(project: Project) returns (r: Option<Id>)
      requires Valid()
      modifies this, project
      ensures Valid()
      ensures old(cursor) == |old(records)| ==>
        r == None && records == old(records) && cursor == old(cursor) && project.State() == old(project.State())
      ensures old(cursor) < |old(records)| ==>
        && r == Some(old(records)[old(cursor)].id) && cursor == old(cursor) + 1
        && records == old(records)[old(cursor) := old(records)[old(cursor)].(undone := false)]
        && project.State() == Forward(old(project.State()), old(records)[old(cursor)].ops)
    {
      if cursor >= |records| {
        return None;
      }
      ApplyOps(project, records[cursor].ops);
      r := Some(records[cursor].id);
      records := records[cursor := records[cursor].(undone := false)];
      cursor := cursor + 1;
    }

    /** Rebuild the graph from the journal; the name and the settings are not cleared. */
    method Replay(project: Project)
      requires Valid()
      modifies project
      ensures project.State() == Replayed(old(project.State()), records[..cursor])
    {
      project.objects := map[];
      project.relations := map[];
      ghost var cleared := project.State();
      var i := 0;
      assert records[..0] == [];
      while i < cursor
        invariant 0 <= i <= cursor
        invariant project.State() == Forward(cleared, AllOps(records[..i]))
      {
        ApplyOps(project, records[i].ops);
        AllOpsOne(records, i);
        ForwardConcat(cleared, AllOps(records[..i]), records[i].ops);
        i := i + 1;
      }
    }
  }

  function Cleared(g: Graph): Graph {
    g.(objects := map[], relations := map[])
  }

  function Replayed(g: Graph, records: seq<TxnRecord>): Graph {
    Forward(Cleared(g), AllOps(records))
  }
}
