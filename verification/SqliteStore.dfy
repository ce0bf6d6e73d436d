/** The SQLite store: one object whose methods update the tables. Each method is tied to the step
    function whose runs the other modules reason about. */
module SqliteStore {
  import opened Wrappers
  import opened StatusOrder
  import opened Messages
  import Ordering
  import MessageListing
  import ServiceRequests
  import Outbox
  import OutboxRuns
  import Migrations

  datatype StoreError = StoreClosed | InvalidRecord | OperationFailed | StaleLease
    | CompletionRejected(cause: ServiceRequests.CompletionError) | MigrationRejected(failure: Migrations.MigrateError)

  /** recordMessage can fail at its INSERT, or at the SELECT or the UPDATE of its reconciliation. */
  datatype RecordFault = Nowhere | AtInsert | AtReconcile

  class SqlitePersistenceStore {
    var closed: bool
    var messages: map<string, Message>
    var events: seq<StatusEvent>
    var requests: ServiceRequests.Table
    var outbox: Outbox.Table
    var database: Migrations.Database
    /** The accepted outbox operations, in order. */
    ghost var outboxLog: seq<OutboxRuns.Event>

    ghost predicate Valid()
      reads this
    {
      MessageListing.WellKeyed(messages) && Outbox.WellKeyed(outbox)
    }

    ghost function MessageTables(): Tables
      reads this
    {
      Tables(messages, events)
    }

    ghost function OutboxRun(): OutboxRuns.Run
      reads this
    {
      OutboxRuns.Run(outbox, outboxLog)
    }

    constructor ()
      ensures Valid() && !closed && MessageTables() == Tables(map[], []) && requests == map[]
      ensures OutboxRun() == OutboxRuns.EMPTY && database == Migrations.Database(None, map[])
    {
      closed := false;
      messages := map[];
      events := [];
      requests := map[];
      outbox := map[];
      database := Migrations.Database(None, map[]);
      outboxLog := [];
    }

    method Close()
      requires Valid()
      modifies `closed
      ensures closed && Valid()
    {
      closed := true;
    }

    // ----- messages -----

    method RecordMessage(m: Message, fault: RecordFault) returns (r: Result<(), StoreError>)
      requires Valid()
      modifies `messages
      ensures Valid()
      ensures r == if closed then Err(StoreClosed) else if fault == Nowhere then Ok(()) else Err(OperationFailed)
      ensures MessageTables() ==
              if closed || fault == AtInsert then old(MessageTables())
              else if fault == AtReconcile then Tables(Insert(old(messages), m), events)
              else Record(Sqlite, old(MessageTables()), m)
      ensures !closed && fault != AtInsert ==>
                AddsRow(old(messages), messages, m)
    {
      if closed { return Err(StoreClosed); }
      if fault == AtInsert { return Err(OperationFailed); }
      RecordingAddsRow(Sqlite, MessageTables(), m);
      hide Insert, AddsRow, Reconcile;
      RecordReconciles(MessageTables(), m);
      hide Record;
      messages := Insert(messages, m);
      if fault == AtReconcile { return Err(OperationFailed); }
      ReconcileStoredStatus(m.waMessageId, m.status, m.updatedAt);
      r := Ok(());
    }

    /** Step over the stored events in time order, from what the call recorded. */
    method ReconcileStoredStatus(wa: string, recorded: Status, recordedAt: int)
      requires Valid()
      modifies `messages
      ensures Valid()
      ensures MessageTables() == Reconcile(old(MessageTables()), wa, Standing(recorded, recordedAt))
    {
      var stored := OrderByTimestamp(EventsOf(events, wa));
      if |stored| == 0 { return; }
      var bestStatus, bestUpdatedAt := recorded, recordedAt;
      for i := 0 to |stored|
        invariant Best(stored[i..], Standing(bestStatus, bestUpdatedAt)) == Best(stored, Standing(recorded, recordedAt))
        invariant Valid() && messages == old(messages)
      {
        if ShouldAdvance(stored[i].status, bestStatus) {
          bestStatus := stored[i].status;
          if stored[i].timestamp > bestUpdatedAt { bestUpdatedAt := stored[i].timestamp; }
        }
        assert stored[i..][1..] == stored[i + 1..];
      }
      if bestStatus != recorded || bestUpdatedAt != recordedAt {
        messages := SetStatus(messages, wa, bestStatus, bestUpdatedAt);
      }
    }

    /** `pick` is the row the single-row SELECT returns when several carry the id. */
    method AppendMessageStatus(e: StatusEvent, pick: string, fails: bool) returns (r: Result<(), StoreError>)
      requires Valid() && MayPick(messages, e.waMessageId, pick)
      modifies `messages, `events
      ensures Valid()
      ensures r == if closed then Err(StoreClosed) else if fails then Err(OperationFailed) else Ok(())
      ensures MessageTables() == if r.Ok? then Append(old(MessageTables()), e, pick) else old(MessageTables())
    {
      if closed { return Err(StoreClosed); }
      if fails { return Err(OperationFailed); }
      events := InsertEvent(events, e);
      if pick in messages && messages[pick].waMessageId == e.waMessageId {
        var current := messages[pick];
        if ShouldAdvance(e.status, current.status) {
          var newUpdatedAt := if e.timestamp > current.updatedAt then e.timestamp else current.updatedAt;
          messages := SetStatus(messages, e.waMessageId, e.status, newUpdatedAt);
        }
      }
      r := Ok(());
    }

    /** Look the cursor up, fetch one row more than the page, cut the page off, and hand out a cursor if a
        row was left over: the page is the top of the rows below the cursor. */
    method ListMessages(limit: int, before: Option<string>) returns (r: Result<MessageListing.Page, StoreError>)
      requires Valid()
      ensures closed ==> r == Err(StoreClosed)
      ensures !closed && !(1 <= limit <= 100) ==> r == Err(InvalidRecord)
      ensures !closed && 1 <= limit <= 100 ==> r == Ok(MessageListing.ListMessages(messages, limit, before))
      ensures r.Ok? && before.Some? && before.value !in messages ==> r.value == MessageListing.Page([], None)
      ensures r.Ok? && (before.Some? ==> before.value in messages) ==>
                MessageListing.IsTopPage(messages, limit, before, r.value)
    {
      if closed { return Err(StoreClosed); }
      if limit < 1 || limit > 100 { return Err(InvalidRecord); }
      hide *;
      var fetchLimit := limit + 1;
      var cursor: Option<Ordering.Key> := None;
      if before.Some? {
        if before.value !in messages {
          NoSuchCursor(messages, limit, before);
          return Ok(MessageListing.Page([], None));
        }
        cursor := Some(MessageListing.KeyOf(messages[before.value]));
      }
      MessageListing.PageFromFetch(messages, limit, before);
      var rows := MessageListing.Fetch(messages, cursor, fetchLimit);
      var items := if |rows| > limit then rows[..limit] else rows;
      var nextCursor := if |rows| > limit then Some(items[|items| - 1].rowId) else None;
      r := Ok(MessageListing.Page(items, nextCursor));
    }

    // ----- service requests -----

    method ClaimServiceRequest(key: string, hash: string, createdAt: int, fault: Fault)
      returns (r: Result<ServiceRequests.ClaimResult, StoreError>)
      requires Valid()
      modifies `requests
      ensures Valid()
      ensures var (t', result) := ServiceRequests.Claim(old(requests), key, hash, createdAt);
              && r == (if closed then Err(StoreClosed) else if fault == NoFault then Ok(result) else Err(OperationFailed))
              && requests == if closed || fault == BeforeWrite then old(requests) else t'
      ensures !closed && fault == NoFault ==> (r == Ok(ServiceRequests.Reserved) <==> key !in old(requests))
      ensures requests.Keys == old(requests).Keys + (if closed || fault == BeforeWrite then {} else {key})
      ensures forall k :: k in old(requests) ==> requests[k] == old(requests)[k]
    {
      if closed { return Err(StoreClosed); }
      if fault == BeforeWrite { return Err(OperationFailed); }
      var inserted := key !in requests;
      if inserted {
        requests := requests[key := ServiceRequests.Request(hash, None, createdAt, Some(createdAt), ServiceRequests.Claimed)];
      }
      if fault == AfterWrite { return Err(OperationFailed); }
      if inserted { return Ok(ServiceRequests.Reserved); }
      var row := requests[key];
      if row.requestHash != hash { return Ok(ServiceRequests.Conflict); }
      if row.status.Completed? && row.responseJson.Some? { return Ok(ServiceRequests.Stored(row.responseJson.value)); }
      r := Ok(ServiceRequests.Pending);
    }

    /** Two statements: `later` is the table as other processes leave it between them. */
    method CompleteServiceRequest(key: string, hash: string, responseJson: string, createdAt: int, fault: Fault,
                                  later: ServiceRequests.Table)
      returns (r: Result<(), StoreError>)
      requires Valid() && ServiceRequests.Persists(requests, later)
      modifies `requests
      ensures Valid()
      ensures closed ==> r == Err(StoreClosed) && requests == old(requests)
      ensures !closed && fault == BeforeWrite ==> r == Err(OperationFailed) && requests == old(requests)
      ensures !closed && fault != BeforeWrite ==>
                var (t', result) := ServiceRequests.CompleteAround(old(requests), later, key, hash, responseJson, createdAt);
                && requests == t'
                && r == (if result.Err? then Err(CompletionRejected(result.error))
                         else if fault == AfterWrite then Err(OperationFailed) else Ok(()))
    {
      if closed { return Err(StoreClosed); }
      if fault == BeforeWrite { return Err(OperationFailed); }
      var found := key in requests;
      var existing := if found then Some(requests[key]) else None;
      requests := later;
      if existing.None? { return Err(CompletionRejected(ServiceRequests.NoClaim)); }
      if existing.value.requestHash != hash { return Err(CompletionRejected(ServiceRequests.HashMismatch)); }
      if existing.value.status.Completed? { return if fault == AfterWrite then Err(OperationFailed) else Ok(()); }
      var changes := 0;
      if key in requests && requests[key].requestHash == hash && requests[key].status.Claimed? {
        requests := requests[key := requests[key].(responseJson := Some(responseJson), status := ServiceRequests.Completed,
                                                   createdAt := createdAt)];
        changes := 1;
      }
      if changes != 1 { return Err(CompletionRejected(ServiceRequests.StaleReservation)); }
      r := if fault == AfterWrite then Err(OperationFailed) else Ok(());
    }

    method RecordServiceRequest(key: string, hash: string, responseJson: string, createdAt: int, fault: Fault)
      returns (r: Result<(), StoreError>)
      requires Valid()
      modifies `requests
      ensures Valid()
      ensures r == if closed then Err(StoreClosed) else if fault == NoFault then Ok(()) else Err(OperationFailed)
      ensures requests == if closed || fault == BeforeWrite then old(requests)
                          else ServiceRequests.Record(old(requests), key, hash, responseJson, createdAt)
    {
      if closed { return Err(StoreClosed); }
      if fault == BeforeWrite { return Err(OperationFailed); }
      if key !in requests {
        requests := requests[key := ServiceRequests.Request(hash, Some(responseJson), createdAt, None,
                                                            ServiceRequests.Completed)];
      }
      r := if fault == AfterWrite then Err(OperationFailed) else Ok(());
    }

    method GetServiceRequest(key: string, hash: string) returns (r: Result<ServiceRequests.Lookup, StoreError>)
      requires Valid()
      ensures r == if closed then Err(StoreClosed) else Ok(ServiceRequests.Get(requests, key, hash))
    {
      if closed { return Err(StoreClosed); }
      if key !in requests { return Ok(ServiceRequests.Nothing); }
      var row := requests[key];
      if row.requestHash != hash { return Ok(ServiceRequests.LookupConflict); }
      if row.status.Claimed? || row.responseJson.None? { return Ok(ServiceRequests.Nothing); }
      r := Ok(ServiceRequests.Found(row.responseJson.value));
    }

    // ----- outbox -----

    /** True when the item was enqueued, false for a duplicate id. */
    method EnqueueOutboxItem(id: string, payloadHash: string, createdAt: int, nextAttemptAt: Option<int>, fault: Fault)
      returns (r: Result<bool, StoreError>)
      requires Valid()
      modifies `outbox, `outboxLog
      ensures Valid()
      ensures r == if closed then Err(StoreClosed) else if fault == NoFault then Ok(id !in old(outbox)) else Err(OperationFailed)
      ensures OutboxRun() == if closed || fault == BeforeWrite then old(OutboxRun())
                             else OutboxRuns.Next(old(OutboxRun()), OutboxRuns.DoEnqueue(id, payloadHash, createdAt, nextAttemptAt))
    {
      if closed { return Err(StoreClosed); }
      if fault == BeforeWrite { return Err(OperationFailed); }
      var duplicate := id in outbox;
      if !duplicate {
        var at := if nextAttemptAt.Some? then nextAttemptAt.value else createdAt;
        outbox := outbox[id := Outbox.Item(id, Outbox.Pending, 0, 0, Some(at), payloadHash, createdAt, createdAt)];
        outboxLog := outboxLog + [OutboxRuns.Enqueued(id, payloadHash, createdAt, nextAttemptAt)];
      }
      r := if fault == AfterWrite then Err(OperationFailed) else Ok(!duplicate);
    }

    /** One transaction: select the batch, lease its rows one by one, hand out the items as leased.
        `faults(n)` says whether its n-th statement fails, the SELECT first and the COMMIT last; any
        failure rolls everything back. */
    method ClaimOutboxItems(now: int, limit: int, faults: nat -> bool) returns (r: Result<seq<Outbox.Item>, StoreError>)
      requires Valid()
      modifies `outbox, `outboxLog
      ensures Valid()
      ensures closed ==> r == Err(StoreClosed)
      ensures !closed && !(1 <= limit <= 100) ==> r == Err(InvalidRecord)
      ensures !closed && 1 <= limit <= 100 ==>
                var items := Outbox.Claim(old(outbox), now, limit).1;
                r == if SomeFails(faults, 0, |items| + 1) then Err(OperationFailed) else Ok(items)
      ensures OutboxRun() == if r.Ok? then OutboxRuns.Next(old(OutboxRun()), OutboxRuns.DoClaim(now, limit)) else old(OutboxRun())
      ensures r.Ok? && OutboxRuns.Inv(old(OutboxRun())) ==> OutboxRuns.HandsOutTheDue(old(OutboxRun()), r.value, now, limit)
    {
      if closed { return Err(StoreClosed); }
      if limit < 1 || limit > 100 { return Err(InvalidRecord); }
      hide *;
      var before := outbox;
      var batch := Outbox.Batch(outbox, now, limit);
      ClaimUnfolds(OutboxRun(), now, limit);
      SoundClaims(OutboxRun(), now, limit);
      BatchIsInTable(outbox, now, limit);
      LeasedRows(outbox, batch, now);
      SomeFailsSplits(faults, |batch|);
      if faults(0) { return Err(OperationFailed); }
      var done, items := LeaseRows(batch, now, faults);
      if !done || faults(|batch| + 1) {
        outbox := before;
        return Err(OperationFailed);
      }
      outboxLog := outboxLog + OutboxRuns.ClaimEvents(items, now);
      r := Ok(items);
    }

    /** Each row is leased as it was selected: rows are distinct, so none changes under the loop, and
        the UPDATE's guard on status and lease always holds. */
    method LeaseRows(batch: seq<Ordering.Key>, now: int, faults: nat -> bool) returns (done: bool, items: seq<Outbox.Item>)
      requires Valid() && InTable(outbox, batch)
      modifies `outbox
      ensures Valid()
      ensures done <==> !SomeFails(faults, 1, |batch|)
      ensures done ==> outbox == Outbox.LeaseAll(old(outbox), batch, now) && items == Outbox.ItemsAt(outbox, batch)
    {
      hide Outbox.Leased, Outbox.LeaseAll, Outbox.ItemsAt, MessageListing.WellKeyed, SomeFails;
      NoneFailsYet(faults);
      ghost var t0 := outbox;
      LeasedRows(t0, batch, now);
      var rows := Outbox.ItemsAt(outbox, batch);
      Outbox.ItemsOfBatch(outbox, batch);
      items := [];
      for i := 0 to |rows|
        invariant Valid() && outbox.Keys == t0.Keys
        invariant Outbox.LeaseAll(outbox, batch[i..], now) == Outbox.LeaseAll(t0, batch, now)
        invariant |items| == i && forall j :: 0 <= j < i ==> items[j] == Outbox.Leased(rows[j], now)
        invariant forall j :: i <= j < |rows| ==> outbox[batch[j].id] == rows[j]
        invariant !SomeFails(faults, 1, i)
      {
        SomeFailsGrows(faults, i, |rows|);
        if faults(i + 1) { return false, []; }
        var row := rows[i];
        LeaseAllUnfolds(outbox, batch, i, now);
        LeasedKeepsId(row, now);
        items := items + [Outbox.Leased(row, now)];
        if outbox[row.id].status == row.status && outbox[row.id].leaseId == row.leaseId {
          outbox := outbox[row.id := Outbox.Leased(outbox[row.id], now)];
        }
      }
      LeaseAllEnds(outbox, batch, now);
      done := true;
    }

    method MarkOutboxItemFailed(id: string, leaseId: nat, nextAttemptAt: int, updatedAt: int, fault: Fault)
      returns (r: Result<(), StoreError>)
      requires Valid()
      modifies `outbox, `outboxLog
      ensures Valid()
      ensures r.Ok? <==> !closed && fault == NoFault && Outbox.Fenced(old(outbox), id, leaseId)
      ensures !closed && fault == NoFault && r.Err? ==> r == Err(StaleLease)
      ensures OutboxRun() == if closed || fault == BeforeWrite then old(OutboxRun())
                             else OutboxRuns.Next(old(OutboxRun()), OutboxRuns.DoFail(id, leaseId, nextAttemptAt, updatedAt))
    {
      if closed { return Err(StoreClosed); }
      if fault == BeforeWrite { return Err(OperationFailed); }
      var changes := 0;
      if id in outbox && outbox[id].status.Processing? && outbox[id].leaseId == leaseId {
        outbox := outbox[id := outbox[id].(status := Outbox.Pending, nextAttemptAt := Some(nextAttemptAt), updatedAt := updatedAt)];
        outboxLog := outboxLog + [OutboxRuns.Failed(id, leaseId, nextAttemptAt, updatedAt)];
        changes := 1;
      }
      if fault == AfterWrite { return Err(OperationFailed); }
      r := if changes != 1 then Err(StaleLease) else Ok(());
    }

    method MarkOutboxItemSucceeded(id: string, leaseId: nat, updatedAt: int, fault: Fault)
      returns (r: Result<(), StoreError>)
      requires Valid()
      modifies `outbox, `outboxLog
      ensures Valid()
      ensures r.Ok? <==> !closed && fault == NoFault && Outbox.Fenced(old(outbox), id, leaseId)
      ensures !closed && fault == NoFault && r.Err? ==> r == Err(StaleLease)
      ensures OutboxRun() == if closed || fault == BeforeWrite then old(OutboxRun())
                             else OutboxRuns.Next(old(OutboxRun()), OutboxRuns.DoSucceed(id, leaseId, updatedAt))
    {
      if closed { return Err(StoreClosed); }
      if fault == BeforeWrite { return Err(OperationFailed); }
      var changes := 0;
      if id in outbox && outbox[id].status.Processing? && outbox[id].leaseId == leaseId {
        outbox := outbox[id := outbox[id].(status := Outbox.Succeeded, nextAttemptAt := None, updatedAt := updatedAt)];
        outboxLog := outboxLog + [OutboxRuns.Done(id, leaseId, updatedAt)];
        changes := 1;
      }
      if fault == AfterWrite { return Err(OperationFailed); }
      r := if changes != 1 then Err(StaleLease) else Ok(());
    }

    // ----- migrations -----

    /** `faults(n)` says whether the n-th statement fails. */
    method Migrate(ms: seq<Migrations.Migration>, holder: nat, faults: nat -> bool)
      returns (r: Result<Migrations.Report, StoreError>)
      requires Valid()
      modifies `database
      ensures Valid()
      ensures closed ==> r == Err(StoreClosed) && database == old(database)
      ensures !closed ==>
                (var (db', call') := Migrations.RunCall(ms, old(database), holder, Migrations.Waiting, faults, 0);
                 database == db' && call' == Migrations.Finished(Outcome(r)))
    {
      if closed { return Err(StoreClosed); }
      var outcome: Result<Migrations.Report, Migrations.MigrateError>;
      var n: nat := 0;
      var locked := Migrations.AcquireLock(database, holder);
      if faults(0) || locked.None? {
        outcome := Err(Migrations.LockHeld);
        n := 1;
      } else {
        database := locked.value;
        outcome, n := ApplyPending(ms, holder, faults);
      }
      ghost var before := database;
      if !faults(n) {
        database := Migrations.ReleaseLock(database, holder);
      }
      ReleaseEnds(ms, before, holder, outcome, faults, n);
      r := if outcome.Ok? then Ok(outcome.value) else Err(MigrationRejected(outcome.error));
    }

    method ApplyPending(ms: seq<Migrations.Migration>, holder: nat, faults: nat -> bool)
      returns (outcome: Result<Migrations.Report, Migrations.MigrateError>, n: nat)
      requires Valid()
      modifies `database
      ensures Valid()
      ensures Migrations.RunCall(ms, old(database), holder, Migrations.Locked, faults, 1) ==
              Migrations.RunCall(ms, database, holder, Migrations.Releasing(outcome), faults, n)
    {
      if faults(1) { return Err(Migrations.StatementFailed), 2; }
      if !Migrations.ChecksumsMatch(ms, database) { return Err(Migrations.ChecksumMismatch), 2; }
      var applied: seq<string> := [];
      n := 2;
      for i := 0 to |ms|
        invariant Valid()
        invariant Migrations.RunCall(ms, old(database), holder, Migrations.Locked, faults, 1) ==
                  Migrations.RunCall(ms, database, holder, Migrations.Applying(i, applied), faults, n)
      {
        n := n + 1;
        if faults(n - 1) { return Err(Migrations.StatementFailed), n; }
        if ms[i].id !in database.applied {
          n := n + 1;
          if faults(n - 1) { return Err(Migrations.MigrationFailed), n; }
          database := Migrations.ApplyOne(database, ms[i]);
          applied := applied + [ms[i].id];
        }
      }
      outcome, n := Ok(Migrations.Report(applied, applied == [])), n + 1;
    }
  }

  /** Whether one of these statements fails. */
  ghost predicate SomeFails(faults: nat -> bool, first: nat, last: nat) {
    exists n: nat :: first <= n <= last && faults(n)
  }

  lemma NoneFailsYet(faults: nat -> bool)
    ensures !SomeFails(faults, 1, 0)
  {
  }

  lemma SomeFailsSplits(faults: nat -> bool, n: nat)
    ensures SomeFails(faults, 0, n + 1) <==> faults(0) || SomeFails(faults, 1, n) || faults(n + 1)
  {
  }

  lemma SomeFailsGrows(faults: nat -> bool, i: nat, n: nat)
    ensures SomeFails(faults, 1, i + 1) <==> SomeFails(faults, 1, i) || faults(i + 1)
    ensures i < n && faults(i + 1) ==> SomeFails(faults, 1, n)
  {
  }

  /** The rows a claim selects are in the table, each once. */
  predicate InTable(t: Outbox.Table, batch: seq<Ordering.Key>) {
    && (forall i :: 0 <= i < |batch| ==> batch[i].id in t)
    && (forall i, j :: 0 <= i < j < |batch| ==> batch[i].id != batch[j].id)
  }

  lemma BatchIsInTable(t: Outbox.Table, now: int, limit: nat)
    requires Outbox.WellKeyed(t)
    ensures InTable(t, Outbox.Batch(t, now, limit))
  {
    hide Outbox.Eligible, Outbox.Batch, Ordering.Before;
    Outbox.BatchKeys(t, now, limit);
  }

  lemma {:induction false} ClaimUnfolds(run: OutboxRuns.Run, now: int, limit: nat)
    requires Outbox.WellKeyed(run.table)
    ensures var t' := Outbox.LeaseAll(run.table, Outbox.Batch(run.table, now, limit), now);
            var items := Outbox.ItemsAt(t', Outbox.Batch(run.table, now, limit));
            && Outbox.Claim(run.table, now, limit) == (t', items)
            && OutboxRuns.Next(run, OutboxRuns.DoClaim(now, limit))
               == OutboxRuns.Run(t', run.log + OutboxRuns.ClaimEvents(items, now))
  {
  }

  lemma SoundClaims(run: OutboxRuns.Run, now: int, limit: nat)
    requires Outbox.WellKeyed(run.table)
    ensures OutboxRuns.Inv(run) ==> OutboxRuns.HandsOutTheDue(run, Outbox.Claim(run.table, now, limit).1, now, limit)
  {
    hide *;
    if OutboxRuns.Inv(run) {
      OutboxRuns.ClaimKeepsToTheLog(run, now, limit);
    }
  }

  lemma {:induction false} LeasedRows(t: Outbox.Table, batch: seq<Ordering.Key>, now: int)
    requires InTable(t, batch)
    ensures var items := Outbox.ItemsAt(Outbox.LeaseAll(t, batch, now), batch);
            |items| == |batch| && forall i :: 0 <= i < |batch| ==> items[i] == Outbox.Leased(t[batch[i].id], now)
  {
    hide Outbox.Leased;
    Outbox.LeaseAllRows(t, batch, now);
    Outbox.ItemsOfBatch(Outbox.LeaseAll(t, batch, now), batch);
  }

  lemma {:induction false} LeaseAllUnfolds(t: Outbox.Table, batch: seq<Ordering.Key>, i: nat, now: int)
    requires i < |batch| && batch[i].id in t
    ensures Outbox.LeaseAll(t, batch[i..], now) ==
            Outbox.LeaseAll(t[batch[i].id := Outbox.Leased(t[batch[i].id], now)], batch[i + 1..], now)
  {
  }

  lemma LeasedKeepsId(item: Outbox.Item, now: int)
    ensures Outbox.Leased(item, now).id == item.id
  {
  }

  lemma {:induction false} LeaseAllEnds(t: Outbox.Table, batch: seq<Ordering.Key>, now: int)
    ensures Outbox.LeaseAll(t, batch[|batch|..], now) == t
  {
  }

  lemma NoSuchCursor(ms: map<string, Message>, limit: nat, before: Option<string>)
    requires MessageListing.WellKeyed(ms) && before.Some? && before.value !in ms
    ensures MessageListing.ListMessages(ms, limit, before) == MessageListing.Page([], None)
  {
  }

  function Outcome(r: Result<Migrations.Report, StoreError>): Result<Migrations.Report, Migrations.MigrateError> {
    match r
    case Ok(report) => Ok(report)
    case Err(MigrationRejected(failure)) => Err(failure)
    case Err(_) => Err(Migrations.MigrationFailed)
  }

  lemma {:induction false} ReleaseEnds(ms: seq<Migrations.Migration>, db: Migrations.Database, holder: nat,
                    outcome: Result<Migrations.Report, Migrations.MigrateError>, faults: nat -> bool, n: nat)
    ensures Migrations.RunCall(ms, db, holder, Migrations.Releasing(outcome), faults, n) ==
            (if faults(n) then db else Migrations.ReleaseLock(db, holder), Migrations.Finished(outcome))
  {
  }
}
