/** Whole runs of recordMessage and appendMessageStatus: which status a row ends in, whatever the
    order in which the two arrive. */
module StatusConvergence {
  import opened Wrappers
  import opened StatusOrder
  import opened Messages

  /** The tables together with the status each row was first inserted with. */
  datatype Run = Run(tables: Tables, recorded: map<string, Status>)

  /** RecordInterrupted is a recordMessage that stops between its INSERT and its reconciliation:
      the two are separate statements, not one transaction. */
  datatype Step =
    | Record(m: Message)
    | RecordInterrupted(m: Message)
    | Append(e: StatusEvent, pick: string)

  const EMPTY := Run(Tables(map[], []), map[])

  function NextTables(backend: Backend, t: Tables, s: Step): Tables {
    match s
    case Record(m) => Messages.Record(backend, t, m)
    case RecordInterrupted(m) => t.(messages := Insert(t.messages, m))
    case Append(e, pick) => Messages.Append(t, e, pick)
  }

  function Recorded(before: map<string, Status>, messages: map<string, Message>, m: Message): map<string, Status> {
    if m.rowId in messages && m.rowId !in before then before[m.rowId := m.status] else before
  }

  function Next(backend: Backend, run: Run, s: Step): Run {
    var t' := NextTables(backend, run.tables, s);
    Run(t', if s.Append? then run.recorded else Recorded(run.recorded, t'.messages, s.m))
  }

  function After(backend: Backend, steps: seq<Step>): Run {
    if steps == [] then EMPTY
    else Next(backend, After(backend, steps[..|steps| - 1]), steps[|steps| - 1])
  }

  // ----- the law -----

  /** `status` comes from the recording or a stored event, never falls below the recording,
      and a tie keeps the recording. */
  ghost predicate Reaches(status: Status, recorded: Status, wa: string, events: seq<StatusEvent>) {
    && (status == recorded || exists e :: e in events && e.waMessageId == wa && e.status == status)
    && Level(recorded) <= Level(status)
    && (Level(recorded) == Level(status) ==> status == recorded)
  }

  /** `status` is the maximum of the recorded status and every stored event of the message. */
  ghost predicate IsMaximum(status: Status, recorded: Status, wa: string, events: seq<StatusEvent>) {
    && Reaches(status, recorded, wa, events)
    && forall e :: e in events && e.waMessageId == wa ==> Level(e.status) <= Level(status)
  }

  function StatusesOf(events: seq<StatusEvent>, wa: string): set<Status> {
    set e | e in events && e.waMessageId == wa :: e.status
  }

  /** Two histories with the same recorded status and the same event statuses end in one status. */
  lemma MaximumIsUnique(a: Status, b: Status, recorded: Status, wa: string,
                        events1: seq<StatusEvent>, events2: seq<StatusEvent>)
    requires IsMaximum(a, recorded, wa, events1) && IsMaximum(b, recorded, wa, events2)
    requires StatusesOf(events1, wa) == StatusesOf(events2, wa)
    ensures a == b
  {
    assert a != recorded ==> a in StatusesOf(events1, wa);
    assert b != recorded ==> b in StatusesOf(events2, wa);
    assert Level(a) == Level(b);
    if Level(a) > 0 {
      LevelInjective(a, b);
    }
  }

  ghost predicate WellKeyed(run: Run) {
    && run.recorded.Keys == run.tables.messages.Keys
    && forall r :: r in run.tables.messages ==> run.tables.messages[r].rowId == r
  }

  ghost predicate RowHasMaximum(run: Run, r: string)
    requires WellKeyed(run) && r in run.tables.messages
  {
    var m := run.tables.messages[r];
    IsMaximum(m.status, run.recorded[r], m.waMessageId, run.tables.events)
  }

  ghost predicate MaximumLaw(run: Run) {
    && WellKeyed(run)
    && forall r :: r in run.tables.messages ==> RowHasMaximum(run, r)
  }

  // ----- which rows there are -----

  lemma NextWellKeyed(backend: Backend, run: Run, s: Step)
    requires WellKeyed(run)
    ensures WellKeyed(Next(backend, run, s))
  {
    if s.Record? {
      RecordFrame(backend, run.tables, s.m);
    }
  }

  /** A recording, finished or cut off, adds its row exactly when no row stands for it already, and no
      step removes a row or rewrites its identity columns. */
  lemma StepStoresRow(backend: Backend, run: Run, s: Step)
    ensures var ms, ms' := run.tables.messages, Next(backend, run, s).tables.messages;
            && (forall r :: r in ms ==> r in ms' && SameIdentity(ms'[r], ms[r]))
            && if s.Append? then ms'.Keys == ms.Keys else AddsRow(ms, ms', s.m)
  {
    if !s.Append? {
      RecordingAddsRow(backend, run.tables, s.m);
    }
  }

  /** No recording is ever lost: after any run that contains it there is a row that stands for it. */
  lemma {:induction false} EveryRecordingHasARow(backend: Backend, steps: seq<Step>, i: nat) returns (r: string)
    requires i < |steps| && !steps[i].Append?
    ensures StandsFor(After(backend, steps).tables.messages, r, steps[i].m)
    decreases |steps|
  {
    hide Next, SameIdentity;
    var n := |steps| - 1;
    var run := After(backend, steps[..n]);
    StepStoresRow(backend, run, steps[n]);
    if i < n {
      r := EveryRecordingHasARow(backend, steps[..n], i);
      IdentityStandsFor(run.tables.messages, After(backend, steps).tables.messages, r, steps[i].m);
    } else {
      r := StandingRow(backend, run, steps[n]);
    }
  }

  lemma IdentityStandsFor(ms: map<string, Message>, ms': map<string, Message>, r: string, m: Message)
    requires StandsFor(ms, r, m) && r in ms' && SameIdentity(ms'[r], ms[r])
    ensures StandsFor(ms', r, m)
  {
  }

  lemma StandingRow(backend: Backend, run: Run, s: Step) returns (r: string)
    requires !s.Append?
    ensures StandsFor(Next(backend, run, s).tables.messages, r, s.m)
  {
    hide Next;
    StepStoresRow(backend, run, s);
    var ms, ms' := run.tables.messages, Next(backend, run, s).tables.messages;
    if x :| StandsFor(ms, x, s.m) {
      r := x;
      IdentityStandsFor(ms, ms', r, s.m);
    } else {
      r := s.m.rowId;
    }
  }

  lemma {:induction false} AfterWellKeyed(backend: Backend, steps: seq<Step>)
    ensures WellKeyed(After(backend, steps))
  {
    if steps != [] {
      AfterWellKeyed(backend, steps[..|steps| - 1]);
      NextWellKeyed(backend, After(backend, steps[..|steps| - 1]), steps[|steps| - 1]);
    }
  }

  lemma WellKeyedRecords(run: Run)
    requires WellKeyed(run)
    ensures run.recorded.Keys == run.tables.messages.Keys
  {
  }

  /** Nor is any invented: every row is that of a recording of the run, and was recorded with its status. */
  lemma {:induction false} EveryRowWasRecorded(backend: Backend, steps: seq<Step>, r: string) returns (i: nat)
    requires r in After(backend, steps).tables.messages
    ensures i < |steps| && !steps[i].Append? && steps[i].m.rowId == r
    ensures SameIdentity(After(backend, steps).tables.messages[r], steps[i].m)
    ensures r in After(backend, steps).recorded && After(backend, steps).recorded[r] == steps[i].m.status
    ensures r !in After(backend, steps[..i]).tables.messages
  {
    var n := |steps| - 1;
    var run := After(backend, steps[..n]);
    AfterWellKeyed(backend, steps[..n]);
    StepStoresRow(backend, run, steps[n]);
    hide NextTables, StandsFor, WellKeyed;
    WellKeyedRecords(run);
    if r in run.tables.messages {
      i := EveryRowWasRecorded(backend, steps[..n], r);
      assert steps[..n][..i] == steps[..i];
    } else {
      i := n;
    }
  }

  // ----- one step: exactly when the law survives -----

  lemma NewEventRaisesMaximum(status: Status, recorded: Status, wa: string, events: seq<StatusEvent>, e: StatusEvent)
    requires e.waMessageId == wa && IsMaximum(status, recorded, wa, events)
    ensures IsMaximum(status, recorded, wa, InsertEvent(events, e)) <==> Level(e.status) <= Level(status)
    ensures Level(status) < Level(e.status) ==> IsMaximum(e.status, recorded, wa, InsertEvent(events, e))
    ensures Level(e.status) < Level(status) ==> !IsMaximum(e.status, recorded, wa, InsertEvent(events, e))
    ensures Level(e.status) == Level(status) > 0 ==> e.status == status
  {
  }

  lemma OtherMessagesKeepMaximum(status: Status, recorded: Status, wa: string, events: seq<StatusEvent>, e: StatusEvent)
    requires e.waMessageId != wa
    ensures IsMaximum(status, recorded, wa, InsertEvent(events, e)) <==> IsMaximum(status, recorded, wa, events)
  {
  }

  /** An append keeps the law exactly when the row its SELECT returned speaks for every row of the
      message: none stands above an event that is applied, none below one that is not. */
  lemma AppendKeepsLawExactly(backend: Backend, run: Run, e: StatusEvent, pick: string)
    requires MaximumLaw(run)
    requires MayPick(run.tables.messages, e.waMessageId, pick)
    ensures var ms := run.tables.messages;
            MaximumLaw(Next(backend, run, Append(e, pick))) <==>
            (forall r :: Matches(ms, r, e.waMessageId) ==>
              if ShouldAdvance(e.status, ms[pick].status) then Level(ms[r].status) <= Level(e.status)
              else Level(e.status) <= Level(ms[r].status))
  {
    var ms := run.tables.messages;
    var run' := Next(backend, run, Append(e, pick));
    NextWellKeyed(backend, run, Append(e, pick));
    forall r | r in ms
      ensures RowHasMaximum(run', r) <==>
        (Matches(ms, r, e.waMessageId) ==>
          if ShouldAdvance(e.status, ms[pick].status) then Level(ms[r].status) <= Level(e.status)
          else Level(e.status) <= Level(ms[r].status))
    {
      assert RowHasMaximum(run, r);
      if Matches(ms, r, e.waMessageId) {
        AdvanceIsStrictIncrease(e.status, ms[pick].status);
        NewEventRaisesMaximum(ms[r].status, run.recorded[r], e.waMessageId, run.tables.events, e);
      } else {
        OtherMessagesKeepMaximum(ms[r].status, run.recorded[r], ms[r].waMessageId, run.tables.events, e);
      }
    }
  }

  lemma StoredBestIsMaximum(t: Tables, wa: string, s: Standing)
    ensures var b := StoredBest(t, wa, s);
            && IsMaximum(b.status, s.status, wa, t.events)
            && (b != s ==> Level(b.status) > 0 && b.status in StatusesOf(t.events, wa))
  {
    var mine := EventsOf(t.events, wa);
    var events := OrderByTimestamp(mine);
    OrderByTimestampSameElements(mine);
    BestIsMaximum(events, s);
    assert forall e :: e in events <==> e in t.events && e.waMessageId == wa;
  }

  /** The recordMessage call reaches the UPDATE of its reconciliation. */
  predicate Rewrites(backend: Backend, t: Tables, m: Message) {
    && !(backend.Postgres? && m.rowId !in t.messages && Projected(t.messages, m))
    && StoredBest(t, m.waMessageId, StandingOf(m)) != StandingOf(m)
  }

  /** The rows a recordMessage call leaves behind. */
  lemma RecordRows(backend: Backend, t: Tables, m: Message)
    ensures var b := StoredBest(t, m.waMessageId, StandingOf(m));
            var ms' := Messages.Record(backend, t, m).messages;
            && (forall r :: r in t.messages ==>
                 (r in ms' &&
                  ms'[r] == if Rewrites(backend, t, m) && Matches(t.messages, r, m.waMessageId)
                            then t.messages[r].(status := b.status, updatedAt := b.updatedAt) else t.messages[r]))
            && (forall r :: r in ms' && r !in t.messages ==>
                 (r == m.rowId && ms'[r] == m.(status := b.status, updatedAt := b.updatedAt)))
            && Messages.Record(backend, t, m).events == t.events
  {
    var inserted := t.(messages := Insert(t.messages, m));
    assert forall r :: r in inserted.messages ==>
      if r in t.messages then inserted.messages[r] == t.messages[r] else r == m.rowId && inserted.messages[r] == m;
  }

  /** Postgres turns a clash on the unique index away before reconciling. */
  predicate TurnedAway(backend: Backend, t: Tables, m: Message) {
    backend.Postgres? && m.rowId !in t.messages && Projected(t.messages, m)
  }

  /** A stored event goes beyond what the call says: a greater status, or a later failure of a message
      recorded as failed. */
  predicate Outdated(events: seq<StatusEvent>, m: Message) {
    exists e :: e in events && e.waMessageId == m.waMessageId &&
      (Level(m.status) < Level(e.status) || (m.status == e.status == Failed && m.updatedAt < e.timestamp))
  }

  lemma StoredBestIsDecided(t: Tables, wa: string, s: Standing, e: StatusEvent)
    ensures Decides(t.events, wa, s, e) ==> StoredBest(t, wa, s) == Standing(e.status, Later(e.timestamp, s.updatedAt))
    ensures (forall f :: f in t.events && f.waMessageId == wa ==> !ShouldAdvance(f.status, s.status)) ==>
              StoredBest(t, wa, s) == s
  {
    hide Best;
    var mine := EventsOf(t.events, wa);
    var events := OrderByTimestamp(mine);
    OrderByTimestampSameElements(mine);
    OrderByTimestampSorts(mine);
    assert forall f :: f in events <==> f in t.events && f.waMessageId == wa;
    hide Chronological, OrderByTimestamp, EventsOf;
    if Decides(t.events, wa, s, e) {
      assert Decides(events, wa, s, e);
      BestIsDecided(events, wa, s, e);
    }
    if forall f :: f in t.events && f.waMessageId == wa ==> !ShouldAdvance(f.status, s.status) {
      BestStays(events, s);
    }
  }

  /** A recording reaches its UPDATE exactly when it is not turned away and a stored event goes beyond
      what it says. */
  lemma RewritesExactly(backend: Backend, t: Tables, m: Message)
    ensures Rewrites(backend, t, m) <==> !TurnedAway(backend, t, m) && Outdated(t.events, m)
    ensures Outdated(t.events, m) ==> exists d :: Decides(t.events, m.waMessageId, StandingOf(m), d)
  {
    var wa, s := m.waMessageId, StandingOf(m);
    if e :| e in t.events && e.waMessageId == wa && ShouldAdvance(e.status, s.status) {
      var d := SomeEventDecides(t.events, wa, s, e);
      DecidedRewrites(t, m, d);
      if Outdated(t.events, m) {
        assert Decides(t.events, wa, s, d);
      }
    } else {
      StoredBestIsDecided(t, wa, s, StatusEvent(wa, m.status, 0));
      NothingAdvances(t.events, m);
    }
  }

  lemma NothingAdvances(events: seq<StatusEvent>, m: Message)
    requires forall e :: e in events && e.waMessageId == m.waMessageId ==> !ShouldAdvance(e.status, m.status)
    ensures !Outdated(events, m)
  {
  }

  lemma DecidedRewrites(t: Tables, m: Message, d: StatusEvent)
    requires Decides(t.events, m.waMessageId, StandingOf(m), d)
    ensures StoredBest(t, m.waMessageId, StandingOf(m)) != StandingOf(m) <==> Outdated(t.events, m)
  {
    StoredBestIsDecided(t, m.waMessageId, StandingOf(m), d);
    hide StoredBest;
    AdvanceIsStrictIncrease(d.status, m.status);
  }

  lemma RewrittenRow(run: Run, run': Run, r: string, b: Standing, m: Message, rewrites: bool)
    requires MaximumLaw(run) && WellKeyed(run')
    requires r in run.tables.messages && r in run'.tables.messages
    requires run'.recorded[r] == run.recorded[r] && run'.tables.events == run.tables.events
    requires IsMaximum(b.status, m.status, m.waMessageId, run.tables.events)
    requires rewrites ==> Level(b.status) > 0 && b.status in StatusesOf(run.tables.events, m.waMessageId)
    requires run'.tables.messages[r] ==
             if rewrites && Matches(run.tables.messages, r, m.waMessageId)
             then run.tables.messages[r].(status := b.status, updatedAt := b.updatedAt) else run.tables.messages[r]
    ensures RowHasMaximum(run', r) <==>
            (rewrites && Matches(run.tables.messages, r, m.waMessageId) ==>
              Level(run.tables.messages[r].status) <= Level(b.status))
  {
  }

  /** A row of the message was recorded above the call's status and above every stored event. */
  predicate RecordedAbove(run: Run, m: Message, r: string) {
    && Matches(run.tables.messages, r, m.waMessageId) && r in run.recorded
    && Level(m.status) < Level(run.recorded[r])
    && forall e :: e in run.tables.events && e.waMessageId == m.waMessageId ==> Level(e.status) < Level(run.recorded[r])
  }

  /** A recordMessage call, repeated or new, breaks the law exactly when it is not turned away, a stored
      event goes beyond what it says, and some row was recorded above both. */
  lemma RecordKeepsLawExactly(backend: Backend, run: Run, m: Message)
    requires MaximumLaw(run)
    ensures (MaximumLaw(Next(backend, run, Record(m))) <==>
             !(!TurnedAway(backend, run.tables, m) && Outdated(run.tables.events, m) && exists r :: RecordedAbove(run, m, r)))
  {
    RecordKeepsLawByBest(backend, run, m);
    RewritesExactly(backend, run.tables, m);
    StoredBestIsMaximum(run.tables, m.waMessageId, StandingOf(m));
    var b := StoredBest(run.tables, m.waMessageId, StandingOf(m)).status;
    hide Next, StoredBest, Rewrites, Outdated, TurnedAway;
    forall r | Matches(run.tables.messages, r, m.waMessageId)
      ensures Level(run.tables.messages[r].status) <= Level(b) <==> !RecordedAbove(run, m, r)
    {
      StandsAboveByRecording(run, m, r, b);
    }
  }

  lemma StandsAboveByRecording(run: Run, m: Message, r: string, b: Status)
    requires MaximumLaw(run) && Matches(run.tables.messages, r, m.waMessageId)
    requires IsMaximum(b, m.status, m.waMessageId, run.tables.events)
    ensures Level(run.tables.messages[r].status) <= Level(b) <==> !RecordedAbove(run, m, r)
  {
    assert RowHasMaximum(run, r);
  }

  /** In terms of what the reconciliation writes: it keeps the law exactly when it rewrites nothing or
      no row of the message stands above the status it writes. */
  lemma RecordKeepsLawByBest(backend: Backend, run: Run, m: Message)
    requires MaximumLaw(run)
    ensures var ms := run.tables.messages;
            MaximumLaw(Next(backend, run, Record(m))) <==>
            (Rewrites(backend, run.tables, m) ==> forall r :: Matches(ms, r, m.waMessageId) ==>
              Level(ms[r].status) <= Level(StoredBest(run.tables, m.waMessageId, StandingOf(m)).status))
  {
    var ms := run.tables.messages;
    var run' := Next(backend, run, Record(m));
    NextWellKeyed(backend, run, Record(m));
    RecordRows(backend, run.tables, m);
    StoredBestIsMaximum(run.tables, m.waMessageId, StandingOf(m));
    var b := StoredBest(run.tables, m.waMessageId, StandingOf(m));
    forall r | r in ms
      ensures RowHasMaximum(run', r) <==>
        (Rewrites(backend, run.tables, m) && Matches(ms, r, m.waMessageId) ==> Level(ms[r].status) <= Level(b.status))
    {
      RewrittenRow(run, run', r, b, m, Rewrites(backend, run.tables, m));
    }
    forall r | r in run'.tables.messages && r !in ms ensures RowHasMaximum(run', r) {
    }
  }

  /** A recordMessage cut off before reconciling keeps the law exactly when its row was not
      inserted or no stored event of the message stands above it. */
  lemma InterruptedRecordKeepsLawExactly(backend: Backend, run: Run, m: Message)
    requires MaximumLaw(run)
    ensures MaximumLaw(Next(backend, run, RecordInterrupted(m))) <==>
            (Insert(run.tables.messages, m) == run.tables.messages
             || forall s :: s in StatusesOf(run.tables.events, m.waMessageId) ==> Level(s) <= Level(m.status))
  {
    var ms := run.tables.messages;
    var run' := Next(backend, run, RecordInterrupted(m));
    NextWellKeyed(backend, run, RecordInterrupted(m));
    forall r | r in ms ensures RowHasMaximum(run', r) {
      assert RowHasMaximum(run, r);
    }
    if Insert(ms, m) != ms {
      assert run'.tables.messages[m.rowId] == m && run'.recorded[m.rowId] == m.status;
      forall s | s in StatusesOf(run.tables.events, m.waMessageId) && RowHasMaximum(run', m.rowId)
        ensures Level(s) <= Level(m.status)
      {
      }
      if forall s :: s in StatusesOf(run.tables.events, m.waMessageId) ==> Level(s) <= Level(m.status) {
        forall e | e in run.tables.events && e.waMessageId == m.waMessageId ensures Level(e.status) <= Level(m.status) {
          assert e.status in StatusesOf(run.tables.events, m.waMessageId);
        }
        assert RowHasMaximum(run', m.rowId);
      }
    }
  }

  // ----- whole runs -----

  /** What callers keep to: one direction per message id, and no repeated recording below the first. */
  predicate Keeps(run: Run, s: Step) {
    match s
    case Append(e, pick) => MayPick(run.tables.messages, e.waMessageId, pick)
    case _ =>
      forall r :: r in run.tables.messages && run.tables.messages[r].waMessageId == s.m.waMessageId ==>
        && run.tables.messages[r].direction == s.m.direction
        && (r in run.recorded ==> Level(run.recorded[r]) <= Level(s.m.status))
  }

  predicate Disciplined(backend: Backend, steps: seq<Step>) {
    steps == [] ||
    var before := steps[..|steps| - 1];
    Disciplined(backend, before) && Keeps(After(backend, before), steps[|steps| - 1])
  }

  predicate Uninterrupted(steps: seq<Step>) {
    forall i :: 0 <= i < |steps| ==> !steps[i].RecordInterrupted?
  }

  ghost predicate OneRowPerMessage(ms: map<string, Message>) {
    forall r1, r2 :: r1 in ms && r2 in ms && ms[r1].waMessageId == ms[r2].waMessageId ==> r1 == r2
  }

  lemma NextOneRow(backend: Backend, run: Run, s: Step)
    requires WellKeyed(run) && OneRowPerMessage(run.tables.messages) && Keeps(run, s)
    ensures OneRowPerMessage(Next(backend, run, s).tables.messages)
  {
    var ms := run.tables.messages;
    var ms' := Next(backend, run, s).tables.messages;
    if !s.Append? {
      if s.Record? {
        RecordFrame(backend, run.tables, s.m);
      }
      assert forall r :: r in ms ==> r in ms' && ms'[r].waMessageId == ms[r].waMessageId;
      if s.m.rowId !in ms && s.m.rowId in ms' {
        forall r | r in ms ensures ms[r].waMessageId != s.m.waMessageId {
        }
      }
    }
  }

  lemma DisciplinedStepKeepsLaw(backend: Backend, run: Run, s: Step)
    requires MaximumLaw(run) && OneRowPerMessage(run.tables.messages)
    requires Keeps(run, s) && !s.RecordInterrupted?
    ensures MaximumLaw(Next(backend, run, s))
  {
    var ms := run.tables.messages;
    match s
    case Append(e, pick) =>
      forall r | Matches(ms, r, e.waMessageId)
        ensures if ShouldAdvance(e.status, ms[pick].status) then Level(ms[r].status) <= Level(e.status)
                else Level(e.status) <= Level(ms[r].status)
      {
        assert r == pick;
        AdvanceIsStrictIncrease(e.status, ms[pick].status);
      }
      AppendKeepsLawExactly(backend, run, e, pick);
    case Record(m) =>
      StoredBestIsMaximum(run.tables, m.waMessageId, StandingOf(m));
      forall r | Matches(ms, r, m.waMessageId)
        ensures Level(ms[r].status) <= Level(StoredBest(run.tables, m.waMessageId, StandingOf(m)).status)
      {
        assert RowHasMaximum(run, r);
      }
      RecordKeepsLawByBest(backend, run, m);
  }

  /** Every reachable state: the row's status is the maximum of its recorded status and all stored
      events, for events before or after the recording, in any order, with repetitions. */
  lemma {:induction false} ReachableStatesKeepLaw(backend: Backend, steps: seq<Step>)
    requires Disciplined(backend, steps) && Uninterrupted(steps)
    ensures MaximumLaw(After(backend, steps)) && OneRowPerMessage(After(backend, steps).tables.messages)
  {
    if steps != [] {
      var before, s := steps[..|steps| - 1], steps[|steps| - 1];
      ReachableStatesKeepLaw(backend, before);
      NextOneRow(backend, After(backend, before), s);
      DisciplinedStepKeepsLaw(backend, After(backend, before), s);
    }
  }

  function AppendedStatuses(steps: seq<Step>, wa: string): set<Status> {
    set i | 0 <= i < |steps| && steps[i].Append? && steps[i].e.waMessageId == wa :: steps[i].e.status
  }

  predicate Appended(steps: seq<Step>, e: StatusEvent) {
    exists i :: 0 <= i < |steps| && steps[i].Append? && steps[i].e == e
  }

  predicate Distinct(events: seq<StatusEvent>) {
    forall i, j :: 0 <= i < j < |events| ==> events[i] != events[j]
  }

  /** The event table holds exactly the events ever appended, each once. */
  lemma {:induction false} StoredEventsAreTheAppended(backend: Backend, steps: seq<Step>)
    ensures var events := After(backend, steps).tables.events;
            && (forall e :: e in events <==> Appended(steps, e))
            && Distinct(events)
  {
    if steps != [] {
      var n := |steps| - 1;
      StoredEventsAreTheAppended(backend, steps[..n]);
      hide NextTables, InsertEvent, Appended, Distinct;
      EventsAfterStep(backend, After(backend, steps[..n]).tables, steps[n]);
      if steps[n].Append? {
        InsertEventExactly(After(backend, steps[..n]).tables.events, steps[n].e);
      }
      AppendedSnoc(steps);
    }
  }

  lemma AppendedSnoc(steps: seq<Step>)
    requires steps != []
    ensures var n := |steps| - 1;
            forall e :: Appended(steps, e) <==> Appended(steps[..n], e) || (steps[n].Append? && steps[n].e == e)
  {
    var n := |steps| - 1;
    assert steps == steps[..n] + [steps[n]];
  }

  lemma InsertEventExactly(events: seq<StatusEvent>, e: StatusEvent)
    requires Distinct(events)
    ensures Distinct(InsertEvent(events, e))
    ensures forall x :: x in InsertEvent(events, e) <==> x in events || x == e
  {
  }

  /** So the stored statuses of a message are exactly those ever appended for it. */
  lemma {:induction false} StoredStatusesAreTheAppended(backend: Backend, steps: seq<Step>, wa: string)
    ensures StatusesOf(After(backend, steps).tables.events, wa) == AppendedStatuses(steps, wa)
  {
    hide After;
    StoredEventsAreTheAppended(backend, steps);
  }

  lemma EventsAfterStep(backend: Backend, t: Tables, s: Step)
    ensures NextTables(backend, t, s).events == if s.Append? then InsertEvent(t.events, s.e) else t.events
  {
  }

  /** Convergence: two runs, even on different backends, that append the same statuses for a message
      (in any order and multiplicity) and first record it with the same status end in the same status. */
  lemma {:induction false} Convergence(backend1: Backend, steps1: seq<Step>, r1: string, backend2: Backend, steps2: seq<Step>, r2: string)
    requires Disciplined(backend1, steps1) && Uninterrupted(steps1)
    requires Disciplined(backend2, steps2) && Uninterrupted(steps2)
    requires var run1, run2 := After(backend1, steps1), After(backend2, steps2);
             && r1 in run1.tables.messages && r1 in run1.recorded
             && r2 in run2.tables.messages && r2 in run2.recorded
             && run1.recorded[r1] == run2.recorded[r2]
             && run1.tables.messages[r1].waMessageId == run2.tables.messages[r2].waMessageId
             && AppendedStatuses(steps1, run1.tables.messages[r1].waMessageId)
                == AppendedStatuses(steps2, run1.tables.messages[r1].waMessageId)
    ensures After(backend1, steps1).tables.messages[r1].status == After(backend2, steps2).tables.messages[r2].status
  {
    var run1, run2 := After(backend1, steps1), After(backend2, steps2);
    var wa := run1.tables.messages[r1].waMessageId;
    ReachableStatesKeepLaw(backend1, steps1);
    ReachableStatesKeepLaw(backend2, steps2);
    assert RowHasMaximum(run1, r1) && RowHasMaximum(run2, r2);
    StoredStatusesAreTheAppended(backend1, steps1, wa);
    StoredStatusesAreTheAppended(backend2, steps2, wa);
    MaximumIsUnique(run1.tables.messages[r1].status, run2.tables.messages[r2].status, run1.recorded[r1],
                    wa, run1.tables.events, run2.tables.events);
  }

  // ----- interrupted recordings -----

  ghost predicate RowReaches(run: Run, r: string)
    requires WellKeyed(run) && r in run.tables.messages
  {
    var m := run.tables.messages[r];
    Reaches(m.status, run.recorded[r], m.waMessageId, run.tables.events)
  }

  ghost predicate AllReach(run: Run) {
    WellKeyed(run) && forall r :: r in run.tables.messages ==> RowReaches(run, r)
  }

  lemma AppendKeepsReach(backend: Backend, run: Run, e: StatusEvent, pick: string)
    requires AllReach(run) && OneRowPerMessage(run.tables.messages)
    requires Keeps(run, Append(e, pick))
    ensures AllReach(Next(backend, run, Append(e, pick)))
  {
    var ms := run.tables.messages;
    var run' := Next(backend, run, Append(e, pick));
    NextWellKeyed(backend, run, Append(e, pick));
    assert e in run'.tables.events;
    assert forall x :: x in run.tables.events ==> x in run'.tables.events;
    forall r | r in ms ensures RowReaches(run', r) {
      assert RowReaches(run, r);
      if Matches(ms, r, e.waMessageId) {
        assert r == pick;
        AdvanceIsStrictIncrease(e.status, ms[pick].status);
        if Level(e.status) == Level(run.recorded[r]) > 0 {
          LevelInjective(e.status, run.recorded[r]);
        }
      }
    }
  }

  lemma RewrittenRowReaches(run: Run, run': Run, r: string, b: Standing, m: Message, rewrites: bool)
    requires AllReach(run) && WellKeyed(run')
    requires r in run.tables.messages && r in run'.tables.messages
    requires run'.recorded[r] == run.recorded[r] && run'.tables.events == run.tables.events
    requires Matches(run.tables.messages, r, m.waMessageId) ==> Level(run.recorded[r]) <= Level(m.status) <= Level(b.status)
    requires rewrites ==> Level(b.status) > 0 && b.status in StatusesOf(run.tables.events, m.waMessageId)
    requires run'.tables.messages[r] ==
             if rewrites && Matches(run.tables.messages, r, m.waMessageId)
             then run.tables.messages[r].(status := b.status, updatedAt := b.updatedAt) else run.tables.messages[r]
    ensures RowReaches(run', r)
  {
  }

  lemma RecordKeepsReach(backend: Backend, run: Run, m: Message)
    requires AllReach(run) && Keeps(run, Record(m))
    ensures AllReach(Next(backend, run, Record(m)))
  {
    var run' := Next(backend, run, Record(m));
    var b := StoredBest(run.tables, m.waMessageId, StandingOf(m));
    NextWellKeyed(backend, run, Record(m));
    RecordRows(backend, run.tables, m);
    StoredBestIsMaximum(run.tables, m.waMessageId, StandingOf(m));
    hide StoredBest, Rewrites, IsMaximum, Messages.Record, OrderByTimestamp, Best, Projected;
    forall r | r in run.tables.messages ensures RowReaches(run', r) {
      RewrittenRowReaches(run, run', r, b, m, Rewrites(backend, run.tables, m));
    }
    forall r | r in run'.tables.messages && r !in run.tables.messages ensures RowReaches(run', r) {
    }
  }

  lemma InterruptionKeepsReach(backend: Backend, run: Run, m: Message)
    requires AllReach(run)
    ensures AllReach(Next(backend, run, RecordInterrupted(m)))
  {
    NextWellKeyed(backend, run, RecordInterrupted(m));
    forall r | r in run.tables.messages ensures RowReaches(Next(backend, run, RecordInterrupted(m)), r) {
      assert RowReaches(run, r);
    }
  }

  /** With interruptions a row may lag behind the events, but it never leaves the interval between
      its recording and their maximum. */
  lemma {:induction false} InterruptedRunsStayInReach(backend: Backend, steps: seq<Step>)
    requires Disciplined(backend, steps)
    ensures AllReach(After(backend, steps)) && OneRowPerMessage(After(backend, steps).tables.messages)
  {
    if steps != [] {
      var before, s := steps[..|steps| - 1], steps[|steps| - 1];
      var run := After(backend, before);
      InterruptedRunsStayInReach(backend, before);
      NextOneRow(backend, run, s);
      match s
      case Append(e, pick) => AppendKeepsReach(backend, run, e, pick);
      case Record(m) => RecordKeepsReach(backend, run, m);
      case RecordInterrupted(m) => InterruptionKeepsReach(backend, run, m);
    }
  }

  /** Repeating the recordMessage call restores the maximum for its row, whatever was interrupted
      before; on Postgres the repetition must carry the stored row id. */
  lemma RepeatedRecordingRestores(backend: Backend, run: Run, m: Message, r: string)
    requires AllReach(run) && Matches(run.tables.messages, r, m.waMessageId)
    requires run.recorded[r] == m.status
    requires backend.Sqlite? || m.rowId in run.tables.messages
    ensures var run' := Next(backend, run, Record(m));
            WellKeyed(run') && r in run'.tables.messages && RowHasMaximum(run', r)
  {
    var run' := Next(backend, run, Record(m));
    var b := StoredBest(run.tables, m.waMessageId, StandingOf(m));
    NextWellKeyed(backend, run, Record(m));
    RecordRows(backend, run.tables, m);
    StoredBestIsMaximum(run.tables, m.waMessageId, StandingOf(m));
    assert RowReaches(run, r);
    assert run'.recorded[r] == m.status;
    if b != StandingOf(m) {
      assert run'.tables.messages[r].status == b.status;
    }
  }

  // ----- updated_at -----

  /** An append moves some row's time backward exactly when it is applied to a row of the message later
      than both the event and the row its SELECT returned. */
  lemma AppendKeepsTimeExactly(t: Tables, e: StatusEvent, pick: string)
    ensures ((forall r :: r in t.messages ==> t.messages[r].updatedAt <= Messages.Append(t, e, pick).messages[r].updatedAt) <==>
             !(Matches(t.messages, pick, e.waMessageId) && ShouldAdvance(e.status, t.messages[pick].status) &&
               exists r :: Matches(t.messages, r, e.waMessageId) &&
                 e.timestamp < t.messages[r].updatedAt && t.messages[pick].updatedAt < t.messages[r].updatedAt))
  {
    if r :| Matches(t.messages, r, e.waMessageId) && e.timestamp < t.messages[r].updatedAt
            && Matches(t.messages, pick, e.waMessageId) && t.messages[pick].updatedAt < t.messages[r].updatedAt {
      if ShouldAdvance(e.status, t.messages[pick].status) {
        assert Messages.Append(t, e, pick).messages[r].updatedAt < t.messages[r].updatedAt;
      }
    }
  }

  /** So with one row to a message no append ever does; and a first recording never ends below the
      time of its call. */
  lemma UpdatedAtAdvances(backend: Backend, t: Tables, e: StatusEvent, pick: string, m: Message)
    ensures OneRowPerMessage(t.messages) ==> forall r :: r in t.messages ==>
              t.messages[r].updatedAt <= Messages.Append(t, e, pick).messages[r].updatedAt
    ensures var ms' := Messages.Record(backend, t, m).messages;
            m.rowId in ms' && m.rowId !in t.messages ==> m.updatedAt <= ms'[m.rowId].updatedAt
  {
    AppendKeepsTimeExactly(t, e, pick);
    RecordRows(backend, t, m);
    var events := OrderByTimestamp(EventsOf(t.events, m.waMessageId));
    BestIsMaximum(events, StandingOf(m));
    hide Messages.Record, Messages.Append, Best, OrderByTimestamp, EventsOf, Projected;
  }

  /** A row of the message is later than both the call and the event that decides. */
  ghost predicate LeftBehind(t: Tables, m: Message) {
    exists d, r :: Decides(t.events, m.waMessageId, StandingOf(m), d) && Matches(t.messages, r, m.waMessageId) &&
      d.timestamp < t.messages[r].updatedAt && m.updatedAt < t.messages[r].updatedAt
  }

  /** A recording moves some row's time backward exactly when it is not turned away, a stored event goes
      beyond what it says, and it leaves a row behind. */
  lemma RecordKeepsTimeExactly(backend: Backend, t: Tables, m: Message)
    ensures ((forall r :: r in t.messages ==> t.messages[r].updatedAt <= Messages.Record(backend, t, m).messages[r].updatedAt) <==>
             !(!TurnedAway(backend, t, m) && Outdated(t.events, m) && LeftBehind(t, m)))
  {
    RecordRows(backend, t, m);
    RecordFrame(backend, t, m);
    RewritesExactly(backend, t, m);
    WrittenTime(t, m);
    hide Messages.Record, StoredBest, Rewrites, TurnedAway, Outdated, LeftBehind, Decides;
  }

  lemma WrittenTime(t: Tables, m: Message)
    ensures Outdated(t.events, m) ==>
              (LeftBehind(t, m) <==>
               exists r :: (Matches(t.messages, r, m.waMessageId) &&
                            StoredBest(t, m.waMessageId, StandingOf(m)).updatedAt < t.messages[r].updatedAt))
  {
    RewritesExactly(Sqlite, t, m);
    var wa, s := m.waMessageId, StandingOf(m);
    var b := StoredBest(t, wa, s);
    forall d | Decides(t.events, wa, s, d) ensures b == Standing(d.status, Later(d.timestamp, s.updatedAt)) {
      StoredBestIsDecided(t, wa, s, d);
    }
    hide StoredBest, Rewrites, Outdated, Decides;
  }

  // ----- a recording taken statement by statement -----

  /** The UPDATE of a recording whose SELECT returned the events stored at the time, `seen`; another
      process may have appended more since. */
  function LateUpdate(t: Tables, m: Message, seen: seq<StatusEvent>): Tables {
    var b := StoredBest(t.(events := seen), m.waMessageId, StandingOf(m));
    if b != StandingOf(m) then t.(messages := SetStatus(t.messages, m.waMessageId, b.status, b.updatedAt)) else t
  }

  /** With nothing in between, INSERT, SELECT and UPDATE are the recording. */
  lemma RecordIsThreeStatements(backend: Backend, t: Tables, m: Message)
    requires !TurnedAway(backend, t, m)
    ensures LateUpdate(t.(messages := Insert(t.messages, m)), m, t.events) == Messages.Record(backend, t, m)
  {
  }

  /** An event stored by now stands above both the call and everything the SELECT saw. */
  predicate Overtaken(events: seq<StatusEvent>, seen: seq<StatusEvent>, wa: string, called: Status) {
    exists e :: e in events && e.waMessageId == wa && Level(called) < Level(e.status) &&
      forall f :: f in seen && f.waMessageId == wa ==> Level(f.status) < Level(e.status)
  }

  /** With appends in between, the UPDATE leaves a row of the message at its maximum exactly when none of
      them has overtaken it. */
  lemma LateUpdateKeepsLawExactly(run: Run, m: Message, seen: seq<StatusEvent>, r: string)
    requires WellKeyed(run) && Matches(run.tables.messages, r, m.waMessageId)
    requires Level(run.recorded[r]) <= Level(m.status) && Outdated(seen, m)
    requires forall e :: e in seen ==> e in run.tables.events
    ensures var run' := run.(tables := LateUpdate(run.tables, m, seen));
            (WellKeyed(run') && RowHasMaximum(run', r)) <==> !Overtaken(run.tables.events, seen, m.waMessageId, m.status)
  {
    hide IsMaximum, Outdated, LateUpdate, Overtaken;
    var b := LateStatus(run.tables, m, seen);
    LateMaximum(b, m.status, run.recorded[r], m.waMessageId, seen, run.tables.events);
    OvertakenIsAbove(b, m.status, m.waMessageId, seen, run.tables.events);
  }

  /** The row's status after such an UPDATE. */
  lemma LateStatus(t: Tables, m: Message, seen: seq<StatusEvent>) returns (b: Status)
    requires Outdated(seen, m)
    ensures IsMaximum(b, m.status, m.waMessageId, seen) && Level(m.status) <= Level(b) && Level(b) > 0
    ensures exists e :: e in seen && e.waMessageId == m.waMessageId && e.status == b
    ensures LateUpdate(t, m, seen).messages.Keys == t.messages.Keys && LateUpdate(t, m, seen).events == t.events
    ensures forall r :: r in t.messages ==>
              (LateUpdate(t, m, seen).messages[r].waMessageId == t.messages[r].waMessageId
               && LateUpdate(t, m, seen).messages[r].rowId == t.messages[r].rowId
               && (Matches(t.messages, r, m.waMessageId) ==> LateUpdate(t, m, seen).messages[r].status == b))
  {
    var t' := t.(events := seen);
    StoredBestIsMaximum(t', m.waMessageId, StandingOf(m));
    RewritesExactly(Sqlite, t', m);
    b := StoredBest(t', m.waMessageId, StandingOf(m)).status;
    hide StoredBest, IsMaximum, Outdated;
  }

  lemma LateMaximum(b: Status, called: Status, recorded: Status, wa: string, seen: seq<StatusEvent>, events: seq<StatusEvent>)
    requires Level(called) <= Level(b) && Level(b) > 0 && Level(recorded) <= Level(called)
    requires (forall e :: e in seen ==> e in events) && exists e :: e in seen && e.waMessageId == wa && e.status == b
    ensures IsMaximum(b, recorded, wa, events) <==> forall e :: e in events && e.waMessageId == wa ==> Level(e.status) <= Level(b)
  {
    if Level(b) == Level(recorded) {
      LevelInjective(b, recorded);
    }
  }

  lemma OvertakenIsAbove(b: Status, called: Status, wa: string, seen: seq<StatusEvent>, events: seq<StatusEvent>)
    requires IsMaximum(b, called, wa, seen) && exists e :: e in seen && e.waMessageId == wa && e.status == b
    ensures Overtaken(events, seen, wa, called) <==> exists e :: e in events && e.waMessageId == wa && Level(b) < Level(e.status)
  {
    if e :| e in events && e.waMessageId == wa && Level(b) < Level(e.status) {
      forall f | f in seen && f.waMessageId == wa ensures Level(f.status) < Level(e.status) {
      }
    }
  }

  // ----- what breaks the law -----

  lemma StoredBestOfOne(ms: map<string, Message>, e: StatusEvent, s: Standing)
    ensures StoredBest(Tables(ms, [e]), e.waMessageId, s) ==
            if ShouldAdvance(e.status, s.status) then Standing(e.status, Later(e.timestamp, s.updatedAt)) else s
  {
    var events := [e];
    var t := Tables(ms, events);
    assert EventsOf(t.events, e.waMessageId) == events by {
      assert t.events[1..] == [];
      assert EventsOf([], e.waMessageId) == [];
    }
    assert OrderByTimestamp(events) == events by {
      assert events[..0] == [];
      assert OrderByTimestamp([]) == [];
    }
    assert StoredBest(t, e.waMessageId, s) == Best(events, s);
    assert events[1..] == [];
  }

  /** A repeated recording below the first drags its row down to a stored event, and back in time:
      delivered at 5 becomes sent at 2. */
  lemma LowerRepeatedRecordingRegresses(backend: Backend, row: Message)
    requires row.status == Delivered && row.updatedAt == 5
    ensures var run := Run(Tables(map[row.rowId := row], [StatusEvent(row.waMessageId, Sent, 2)]), map[row.rowId := Delivered]);
            var run' := Next(backend, run, Record(row.(status := Pending, updatedAt := 1)));
            && MaximumLaw(run)
            && row.rowId in run'.tables.messages
            && run'.tables.messages[row.rowId] == row.(status := Sent, updatedAt := 2)
            && !MaximumLaw(run')
  {
    var e := StatusEvent(row.waMessageId, Sent, 2);
    var again := row.(status := Pending, updatedAt := 1);
    var run := Run(Tables(map[row.rowId := row], [e]), map[row.rowId := Delivered]);
    assert RowHasMaximum(run, row.rowId);
    StoredBestOfOne(run.tables.messages, e, StandingOf(again));
    RecordRows(backend, run.tables, again);
    assert Matches(run.tables.messages, row.rowId, row.waMessageId);
    RecordKeepsLawByBest(backend, run, again);
  }

  /** With one message id in both directions, an event can pull one row down to the other's level. */
  lemma TwoDirectionsRegress(backend: Backend, out: Message, back: Message)
    requires out.waMessageId == back.waMessageId && out.rowId != back.rowId
    requires out.direction == Outbound && out.status == Sent
    requires back.direction == Inbound && back.status == Read
    ensures var run := Run(Tables(map[out.rowId := out, back.rowId := back], []), map[out.rowId := Sent, back.rowId := Read]);
            var run' := Next(backend, run, Append(StatusEvent(out.waMessageId, Delivered, 1), out.rowId));
            && MaximumLaw(run)
            && back.rowId in run'.tables.messages && run'.tables.messages[back.rowId].status == Delivered
            && !MaximumLaw(run')
  {
    var run := Run(Tables(map[out.rowId := out, back.rowId := back], []), map[out.rowId := Sent, back.rowId := Read]);
    assert RowHasMaximum(run, out.rowId) && RowHasMaximum(run, back.rowId);
    AppendKeepsLawExactly(backend, run, StatusEvent(out.waMessageId, Delivered, 1), out.rowId);
    assert Matches(run.tables.messages, back.rowId, out.waMessageId);
  }
}
