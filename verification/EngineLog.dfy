/** What the journal says about who did what: every admitted command is on file with its outcome. */
module EngineLog {
  import opened Prelude
  import opened Context
  import opened EngineModel
  import opened EngineRuns

  /** The entry is about this attempt and says how it ended. */
  predicate Tells(c: CommandRecord, a: Attempt) {
    && c.command == a.command && c.actor == a.actor && c.inputs == a.inputs
    && (c.ok <==> a.answer.Ok?)
    && (a.answer.Ok? ==> c.output == a.answer.value && c.error == None)
    && (a.answer.Err? ==> c.output == Null && c.error == Some(a.answer.error))
  }

  /** Entry by entry. */
  predicate TellsAll(log: seq<CommandRecord>, attempts: seq<Attempt>) {
    |log| == |attempts| && forall i :: 0 <= i < |log| ==> Tells(log[i], attempts[i])
  }

  /** Where the last command that was let through is on file. */
  function Log(st: EngineState): seq<CommandRecord>
    requires st.cursor <= |st.records|
  {
    if st.open.Some? then st.open.value.commands
    else if st.cursor == 0 then []
    else st.records[st.cursor - 1].commands
  }

  /** A command is on file with its outcome, unless it failed on its own, with nothing left of it. */
  lemma ExecuteTells(st: EngineState, a: Attempt)
    requires st.cursor <= |st.records| && a.admission == Admitted && (st.open.Some? || a.answer.Ok?)
    ensures var end := DoExecute(st, a);
            && end.cursor <= |end.records| && Log(end) != [] && Tells(Log(end)[|Log(end)| - 1], a)
            && (st.open.Some? ==> |Log(end)| == |Log(st)| + 1 && Log(end)[..|Log(st)|] == Log(st))
            && (st.open.None? ==> |Log(end)| == 1)
  {
    if st.open.None? {
      var t := Txn(a.txnId, a.actor, a.command, a.now, [], []);
      assert t.commands == [];
    }
  }

  /** The last entry tells of the attempt, if it was let through and something is left of it. */
  predicate OnFile(st: EngineState, end: EngineState, a: Attempt) {
    a.admission == Admitted && (st.open.Some? || a.answer.Ok?) ==>
      end.cursor <= |end.records| && Log(end) != [] && Tells(Log(end)[|Log(end)| - 1], a)
  }

  lemma ExecuteIsOnFile(st: EngineState, a: Attempt)
    requires st.cursor <= |st.records|
    ensures OnFile(st, DoExecute(st, a), a)
  {
    if a.admission == Admitted && (st.open.Some? || a.answer.Ok?) {
      ExecuteTells(st, a);
    }
  }

  /** The attempts among the events that are let through, in order. */
  function Attempts(events: seq<Event>): seq<Attempt> {
    if events == [] then []
    else (if events[0].Execute? && events[0].attempt.admission == Admitted then [events[0].attempt] else []) + Attempts(events[1..])
  }

  predicate StaysOpen(ev: Event) {
    !ev.Commit? && !ev.Rollback?
  }

  /** One step in an open transaction logs the attempt, if it is one, and leaves who opened it. */
  lemma OpenStepTells(st: EngineState, ev: Event)
    requires st.cursor <= |st.records| && st.open.Some? && StaysOpen(ev)
    ensures var end := Step(st, ev);
            && end.open.Some? && end.records == st.records && end.cursor == st.cursor && end.dirty == st.dirty
            && end.open.value.(ops := [], commands := []) == st.open.value.(ops := [], commands := [])
            && end.open.value.commands[..|st.open.value.commands|] == st.open.value.commands
            && TellsAll(end.open.value.commands[|st.open.value.commands|..], Attempts([ev]))
  {
    assert [ev][1..] == [];
    if ev.Execute? && ev.attempt.admission == Admitted {
      ExecuteTells(st, ev.attempt);
      assert Attempts([ev]) == [ev.attempt] + [];
    }
  }

  lemma TellsMore(a: seq<CommandRecord>, b: seq<CommandRecord>, x: seq<Attempt>, y: seq<Attempt>)
    requires TellsAll(a, x) && TellsAll(b, y)
    ensures TellsAll(a + b, x + y)
  {
  }

  lemma AttemptsFirst(ev: Event, rest: seq<Event>)
    ensures Attempts([ev] + rest) == Attempts([ev]) + Attempts(rest)
  {
    assert ([ev] + rest)[1..] == rest && [ev][1..] == [];
  }

  lemma {:induction false} OpenRunTells(st: EngineState, events: seq<Event>)
    requires st.cursor <= |st.records| && st.open.Some? && forall i :: 0 <= i < |events| ==> StaysOpen(events[i])
    ensures var end := Run(st, events);
            && end.open.Some? && end.records == st.records && end.cursor == st.cursor
            && end.open.value.(ops := [], commands := []) == st.open.value.(ops := [], commands := [])
            && |st.open.value.commands| <= |end.open.value.commands|
            && end.open.value.commands[..|st.open.value.commands|] == st.open.value.commands
            && TellsAll(end.open.value.commands[|st.open.value.commands|..], Attempts(events))
    decreases |events|
  {
    if events != [] {
      var mid := Step(st, events[0]);
      OpenStepTells(st, events[0]);
      OpenRunTells(mid, events[1..]);
      assert events == [events[0]] + events[1..];
      AttemptsFirst(events[0], events[1..]);
      LogsJoin(st.open.value.commands, mid.open.value.commands, Run(st, events).open.value.commands,
             Attempts([events[0]]), Attempts(events[1..]));
    }
  }

  lemma LogsJoin(a: seq<CommandRecord>, b: seq<CommandRecord>, c: seq<CommandRecord>, x: seq<Attempt>, y: seq<Attempt>)
    requires |a| <= |b| <= |c| && b[..|a|] == a && c[..|b|] == b && TellsAll(b[|a|..], x) && TellsAll(c[|b|..], y)
    ensures c[..|a|] == a && TellsAll(c[|a|..], x + y)
  {
    assert c[..|a|] == c[..|b|][..|a|];
    assert c[|a|..] == c[..|b|][|a|..] + c[|b|..];
    TellsMore(b[|a|..], c[|b|..], x, y);
  }

  /**
   A transaction that is begun, worked in and committed is one record that carries who began
   it, under what title and when, when it was committed, and in order every command that was
   let through in it, failed ones included, each with its outcome.
   */
  lemma TransactionTells(st: EngineState, id: Id, actor: string, title: string, start: int, events: seq<Event>, end: int)
    requires st.cursor <= |st.records| && st.open.None? && forall i :: 0 <= i < |events| ==> StaysOpen(events[i])
    ensures var after := Step(Run(Step(st, Begin(id, actor, title, start)), events), Commit(end));
            if after.cursor == st.cursor then Attempts(events) == [] && after.records == st.records
            else
              && after.cursor == st.cursor + 1 == |after.records|
              && var rec := after.records[st.cursor];
                 && rec.id == id && rec.actor == actor && rec.title == title && rec.startedAt == start && rec.committedAt == end
                 && rec.index == st.cursor && !rec.undone && TellsAll(rec.commands, Attempts(events))
  {
    var begun := Step(st, Begin(id, actor, title, start));
    OpenRunTells(begun, events);
    var log := Run(begun, events).open.value.commands;
    assert log[0..] == log;
  }

  /** A command on its own is a transaction of that name. */
  lemma AloneTells(st: EngineState, a: Attempt)
    requires st.cursor <= |st.records| && st.open.None? && a.admission == Admitted && a.answer.Ok?
    ensures var after := Step(st, Execute(a));
            && after.cursor == st.cursor + 1 == |after.records|
            && var rec := after.records[st.cursor];
               && rec.id == a.txnId && rec.actor == a.actor && rec.title == a.command && rec.startedAt == rec.committedAt == a.now
               && rec.index == st.cursor && !rec.undone && TellsAll(rec.commands, [a])
  {
    ExecutedAlone(st, a);
    ExecuteTells(st, a);
  }

  // ----- the dirty flag --------------------------------------------------------------------------

  lemma CleanStep(st: EngineState, ev: Event)
    requires st.cursor <= |st.records| && !Step(st, ev).dirty
    ensures !st.dirty && Step(st, ev).records == st.records && Step(st, ev).cursor == st.cursor
  {
    if ev.Execute? && st.open.None? && ev.attempt.admission == Admitted && ev.attempt.answer.Ok? {
      ExecuteTells(st, ev.attempt);
    }
  }

  /** As long as the engine does not ask to be saved, journal and cursor are those it started with. */
  lemma {:induction false} CleanMeansUnchanged(st: EngineState, events: seq<Event>)
    requires st.cursor <= |st.records| && !Run(st, events).dirty
    ensures Run(st, events).records == st.records && Run(st, events).cursor == st.cursor && !st.dirty
    decreases |events|
  {
    if events != [] {
      CleanMeansUnchanged(Step(st, events[0]), events[1..]);
      CleanStep(st, events[0]);
    }
  }
}
