/** Whole runs of the outbox under any number of claimers that mark whatever they like, whenever they
    like: leases fence their marks, and the log of accepted operations determines every row. */
module OutboxRuns {
  import opened Wrappers
  import opened Ordering
  import opened Outbox

  datatype Event =
    | Enqueued(id: string, payloadHash: string, createdAt: int, nextAttemptAt: Option<int>)
    | Claimed(id: string, leaseId: nat, now: int)
    | Failed(id: string, leaseId: nat, retryAt: int, updatedAt: int)
    | Done(id: string, leaseId: nat, updatedAt: int)

  /** The table and the log of accepted operations; a rejected mark leaves no trace. */
  datatype Run = Run(table: Table, log: seq<Event>)

  datatype Step =
    | DoEnqueue(id: string, payloadHash: string, createdAt: int, nextAttemptAt: Option<int>)
    | DoClaim(now: int, limit: nat)
    | DoFail(id: string, leaseId: nat, retryAt: int, updatedAt: int)
    | DoSucceed(id: string, leaseId: nat, updatedAt: int)

  const EMPTY := Run(map[], [])

  function ClaimEvents(items: seq<Item>, now: int): (events: seq<Event>)
    ensures |events| == |items|
    ensures forall i :: 0 <= i < |items| ==> events[i] == Claimed(items[i].id, items[i].leaseId, now)
  {
    if items == [] then [] else [Claimed(items[0].id, items[0].leaseId, now)] + ClaimEvents(items[1..], now)
  }

  function Next(r: Run, s: Step): (r': Run)
    requires WellKeyed(r.table)
    ensures WellKeyed(r'.table)
  {
    match s
    case DoEnqueue(id, payloadHash, createdAt, nextAttemptAt) =>
      Run(Enqueue(r.table, id, payloadHash, createdAt, nextAttemptAt),
          if id in r.table then r.log else r.log + [Enqueued(id, payloadHash, createdAt, nextAttemptAt)])
    case DoClaim(now, limit) =>
      var (t', items) := Claim(r.table, now, limit);
      Run(t', r.log + ClaimEvents(items, now))
    case DoFail(id, leaseId, retryAt, updatedAt) =>
      var marked := MarkFailed(r.table, id, leaseId, retryAt, updatedAt);
      if marked.None? then r else Run(marked.value, r.log + [Failed(id, leaseId, retryAt, updatedAt)])
    case DoSucceed(id, leaseId, updatedAt) =>
      var marked := MarkSucceeded(r.table, id, leaseId, updatedAt);
      if marked.None? then r else Run(marked.value, r.log + [Done(id, leaseId, updatedAt)])
  }

  function After(steps: seq<Step>): (r: Run)
    ensures WellKeyed(r.table)
  {
    if steps == [] then EMPTY else Next(After(steps[..|steps| - 1]), steps[|steps| - 1])
  }

  // ----- what a log says about an item -----

  function Claims(log: seq<Event>, id: string): nat {
    if log == [] then 0
    else
      var last := log[|log| - 1];
      Claims(log[..|log| - 1], id) + (if last.Claimed? && last.id == id then 1 else 0)
  }

  /** The latest claim or mark of the item. */
  function Latest(log: seq<Event>, id: string): (e: Option<Event>)
    ensures e.Some? ==> e.value.id == id && !e.value.Enqueued?
  {
    if log == [] then None
    else
      var last := log[|log| - 1];
      if last.id == id && !last.Enqueued? then Some(last) else Latest(log[..|log| - 1], id)
  }

  /** The enqueueing of the item. */
  function Enlisting(log: seq<Event>, id: string): (e: Option<Event>)
    ensures e.Some? ==> e.value.id == id && e.value.Enqueued? && e.value in log
    ensures e.None? ==> forall x :: x in log && x.Enqueued? ==> x.id != id
  {
    if log == [] then None
    else
      var last := log[|log| - 1];
      assert log == log[..|log| - 1] + [last];
      if last.id == id && last.Enqueued? then Some(last) else Enlisting(log[..|log| - 1], id)
  }

  /** What the operation at the end of `log + [e]` was entitled to. */
  predicate Entitled(log: seq<Event>, e: Event) {
    match e
    case Enqueued(id, _, _, _) => Enlisting(log, id).None?
    case Claimed(id, leaseId, now) =>
      && Enlisting(log, id).Some?
      && leaseId == Claims(log, id) + 1
      && (match Latest(log, id)
          case None => true
          case Some(before) => before.Failed? || (before.Claimed? && before.now + LEASE_MS <= now))
    case Failed(id, leaseId, _, _) => leaseId == Claims(log, id) && Latest(log, id).Some? && Latest(log, id).value.Claimed?
    case Done(id, leaseId, _) => leaseId == Claims(log, id) && Latest(log, id).Some? && Latest(log, id).value.Claimed?
  }

  predicate GoodLog(log: seq<Event>) {
    log == [] || (GoodLog(log[..|log| - 1]) && Entitled(log[..|log| - 1], log[|log| - 1]))
  }

  /** The row that the log determines. */
  function RowOf(log: seq<Event>, id: string): Item
    requires Enlisting(log, id).Some?
  {
    var first, n, latest := Enlisting(log, id).value, Claims(log, id), Latest(log, id);
    if latest.None? then
      var due := if first.nextAttemptAt.Some? then first.nextAttemptAt.value else first.createdAt;
      Item(id, Pending, 0, 0, Some(due), first.payloadHash, first.createdAt, first.createdAt)
    else if latest.value.Failed? then
      Item(id, Pending, n, n, Some(latest.value.retryAt), first.payloadHash, first.createdAt, latest.value.updatedAt)
    else if latest.value.Done? then
      Item(id, Succeeded, n, n, None, first.payloadHash, first.createdAt, latest.value.updatedAt)
    else
      Item(id, Processing, n, n, None, first.payloadHash, first.createdAt, latest.value.now)
  }

  predicate RowMatches(log: seq<Event>, item: Item) {
    && Enlisting(log, item.id).Some? && item == RowOf(log, item.id)
    && (Latest(log, item.id).None? ==> Claims(log, item.id) == 0)
  }

  ghost predicate Inv(r: Run) {
    && WellKeyed(r.table)
    && GoodLog(r.log)
    && (forall id :: id in r.table <==> Enlisting(r.log, id).Some?)
    && (forall id :: id in r.table ==> RowMatches(r.log, r.table[id]))
  }

  /** One more event about an item leaves what the log says about the others. */
  lemma {:induction false} LogOfOthers(log: seq<Event>, e: Event, id: string)
    ensures Claims(log + [e], id) == Claims(log, id) + (if e.Claimed? && e.id == id then 1 else 0)
    ensures Latest(log + [e], id) == if e.id == id && !e.Enqueued? then Some(e) else Latest(log, id)
    ensures Enlisting(log + [e], id) == if e.id == id && e.Enqueued? then Some(e) else Enlisting(log, id)
    ensures GoodLog(log + [e]) <==> GoodLog(log) && Entitled(log, e)
  {
  }

  lemma OtherRowMatches(log: seq<Event>, e: Event, item: Item)
    requires RowMatches(log, item) && e.id != item.id
    ensures RowMatches(log + [e], item)
  {
    hide GoodLog, Claims, Latest, Enlisting;
    LogOfOthers(log, e, item.id);
  }

  lemma AppendKeepsInv(r: Run, e: Event, item: Item)
    requires Inv(r) && Entitled(r.log, e) && item.id == e.id
    requires e.id in r.table || e.Enqueued?
    requires RowMatches(r.log + [e], item)
    ensures Inv(Run(r.table[e.id := item], r.log + [e]))
  {
    hide GoodLog, RowMatches, Claims, Latest, Enlisting, Entitled;
    LogOfOthers(r.log, e, e.id);
    var r' := Run(r.table[e.id := item], r.log + [e]);
    forall id | id in r.table && id != e.id ensures RowMatches(r'.log, r.table[id]) {
      OtherRowMatches(r.log, e, r.table[id]);
    }
    forall id ensures id in r'.table <==> Enlisting(r'.log, id).Some? {
      LogOfOthers(r.log, e, id);
    }
  }

  function LeaseOne(r: Run, id: string, now: int): Run
    requires id in r.table
  {
    var item := Leased(r.table[id], now);
    Run(r.table[id := item], r.log + [Claimed(id, item.leaseId, now)])
  }

  lemma LeaseOneKeepsInv(r: Run, id: string, now: int)
    requires Inv(r) && id in r.table && Eligible(r.table[id], now)
    ensures Inv(LeaseOne(r, id, now))
  {
    hide GoodLog, Claims, Latest;
    var item := Leased(r.table[id], now);
    var e := Claimed(id, item.leaseId, now);
    assert RowMatches(r.log, r.table[id]);
    LogOfOthers(r.log, e, id);
    AppendKeepsInv(r, e, item);
  }

  /** LeaseAll leases the head of the batch as LeaseOne does, then the rest. */
  lemma {:induction false} LeaseAllUnfolds(r: Run, batch: seq<Key>, now: int)
    requires WellKeyed(r.table) && batch != []
    requires forall i :: 0 <= i < |batch| ==> batch[i].id in r.table
    requires forall i, j :: 0 <= i < j < |batch| ==> batch[i].id != batch[j].id
    ensures var r1, rest := LeaseOne(r, batch[0].id, now), batch[1..];
            var t' := LeaseAll(r.table, batch, now);
            && t' == LeaseAll(r1.table, rest, now)
            && r.log + ClaimEvents(ItemsAt(t', batch), now) == r1.log + ClaimEvents(ItemsAt(t', rest), now)
  {
    hide ClaimEvents;
    var id, rest := batch[0].id, batch[1..];
    var r1 := LeaseOne(r, id, now);
    var t' := LeaseAll(r.table, batch, now);
    HeadKeepsItsLease(r.table, batch, now);
    ClaimEventsCons(t'[id], ItemsAt(t', rest), now);
    AppendAssociates(r.log, [Claimed(id, t'[id].leaseId, now)], ClaimEvents(ItemsAt(t', rest), now));
  }

  lemma {:induction false} HeadKeepsItsLease(t: Table, batch: seq<Key>, now: int)
    requires WellKeyed(t) && batch != []
    requires forall i :: 0 <= i < |batch| ==> batch[i].id in t
    requires forall i, j :: 0 <= i < j < |batch| ==> batch[i].id != batch[j].id
    ensures var t' := LeaseAll(t, batch, now);
            batch[0].id in t' && t'[batch[0].id] == Leased(t[batch[0].id], now) && t'[batch[0].id].id == batch[0].id
  {
    LeaseAllRows(t, batch, now);
  }

  lemma {:induction false} ClaimEventsCons(item: Item, items: seq<Item>, now: int)
    ensures ClaimEvents([item] + items, now) == [Claimed(item.id, item.leaseId, now)] + ClaimEvents(items, now)
  {
  }

  lemma AppendAssociates(a: seq<Event>, b: seq<Event>, c: seq<Event>)
    ensures a + (b + c) == (a + b) + c
  {
  }

  lemma {:induction false} LeaseAllKeepsInv(r: Run, batch: seq<Key>, now: int)
    requires Inv(r)
    requires forall i :: 0 <= i < |batch| ==> batch[i].id in r.table && Eligible(r.table[batch[i].id], now)
    requires forall i, j :: 0 <= i < j < |batch| ==> batch[i].id != batch[j].id
    ensures var t' := LeaseAll(r.table, batch, now);
            Inv(Run(t', r.log + ClaimEvents(ItemsAt(t', batch), now)))
    decreases |batch|
  {
    hide GoodLog, RowMatches, Enlisting, LeaseOne, LeaseAll, ItemsAt, ClaimEvents, Eligible;
    if batch == [] {
      LeaseNothing(r, now);
    } else {
      LeaseOneKeepsInv(r, batch[0].id, now);
      LeaseAllUnfolds(r, batch, now);
      RestUntouched(r, batch, now);
      LeaseAllKeepsInv(LeaseOne(r, batch[0].id, now), batch[1..], now);
    }
  }

  lemma {:induction false} LeaseNothing(r: Run, now: int)
    ensures LeaseAll(r.table, [], now) == r.table && r.log + ClaimEvents(ItemsAt(r.table, []), now) == r.log
  {
  }

  /** Leasing the head of the batch leaves the rest to be leased. */
  lemma RestUntouched(r: Run, batch: seq<Key>, now: int)
    requires batch != [] && forall i :: 0 <= i < |batch| ==> batch[i].id in r.table && Eligible(r.table[batch[i].id], now)
    requires forall i, j :: 0 <= i < j < |batch| ==> batch[i].id != batch[j].id
    ensures var r1 := LeaseOne(r, batch[0].id, now);
            forall i :: 0 < i < |batch| ==> batch[i].id in r1.table && Eligible(r1.table[batch[i].id], now)
  {
    hide Eligible, Leased;
  }

  lemma NextKeepsInv(r: Run, s: Step)
    requires Inv(r)
    ensures Inv(Next(r, s))
  {
    hide GoodLog, Claims, Latest;
    match s
    case DoEnqueue(id, payloadHash, createdAt, nextAttemptAt) =>
      if id !in r.table {
        var e := Enqueued(id, payloadHash, createdAt, nextAttemptAt);
        NeverTouched(r.log, id);
        LogOfOthers(r.log, e, id);
        AppendKeepsInv(r, e, Enqueue(r.table, id, payloadHash, createdAt, nextAttemptAt)[id]);
      }
    case DoClaim(now, limit) =>
      BatchKeys(r.table, now, limit);
      LeaseAllKeepsInv(r, Batch(r.table, now, limit), now);
    case DoFail(id, leaseId, retryAt, updatedAt) =>
      if Fenced(r.table, id, leaseId) {
        MarkKeepsInv(r, Failed(id, leaseId, retryAt, updatedAt), MarkFailed(r.table, id, leaseId, retryAt, updatedAt).value);
      }
    case DoSucceed(id, leaseId, updatedAt) =>
      if Fenced(r.table, id, leaseId) {
        MarkKeepsInv(r, Done(id, leaseId, updatedAt), MarkSucceeded(r.table, id, leaseId, updatedAt).value);
      }
  }

  lemma MarkKeepsInv(r: Run, e: Event, t': Table)
    requires Inv(r) && (e.Failed? || e.Done?) && Fenced(r.table, e.id, e.leaseId)
    requires t' == r.table[e.id := r.table[e.id].(status := if e.Failed? then Pending else Succeeded, updatedAt := e.updatedAt,
                                                 nextAttemptAt := if e.Failed? then Some(e.retryAt) else None)]
    ensures Inv(Run(t', r.log + [e]))
  {
    hide GoodLog, Claims, Latest;
    assert RowMatches(r.log, r.table[e.id]);
    LogOfOthers(r.log, e, e.id);
    AppendKeepsInv(r, e, t'[e.id]);
  }

  /** An id that was never enqueued has never been claimed or marked. */
  lemma {:induction false} NeverTouched(log: seq<Event>, id: string)
    requires GoodLog(log) && Enlisting(log, id).None?
    ensures Claims(log, id) == 0 && Latest(log, id) == None
  {
    if log != [] {
      NeverTouched(log[..|log| - 1], id);
    }
  }

  lemma {:induction false} ReachableInv(steps: seq<Step>)
    ensures Inv(After(steps))
  {
    if steps != [] {
      ReachableInv(steps[..|steps| - 1]);
      NextKeepsInv(After(steps[..|steps| - 1]), steps[|steps| - 1]);
    }
  }

  // ----- laws of every good log -----

  predicate About(e: Event, id: string) {
    e.id == id && !e.Enqueued?
  }

  predicate IsMark(e: Event) {
    e.Failed? || e.Done?
  }

  lemma {:induction false} GoodAt(log: seq<Event>, i: nat)
    requires GoodLog(log) && i < |log|
    ensures GoodLog(log[..i]) && Entitled(log[..i], log[i])
    decreases |log|
  {
    var n := |log| - 1;
    if i < n {
      GoodAt(log[..n], i);
      assert log[..n][..i] == log[..i];
    }
  }

  lemma {:induction false} PrefixUnfolds(log: seq<Event>, j: nat, id: string)
    requires 0 < j <= |log|
    ensures Claims(log[..j], id) == Claims(log[..j - 1], id) + (if log[j - 1].Claimed? && log[j - 1].id == id then 1 else 0)
    ensures Latest(log[..j], id) == if About(log[j - 1], id) then Some(log[j - 1]) else Latest(log[..j - 1], id)
  {
    assert log[..j][..j - 1] == log[..j - 1];
  }

  /** Between two points of a log: claims only add up, and an item once marked needs a new claim
      before it can be marked again. */
  lemma {:induction false} ClaimsBetween(log: seq<Event>, i: nat, j: nat, id: string)
    requires i < j <= |log| && About(log[i], id)
    ensures Claims(log[..j], id) >= Claims(log[..i], id) + (if log[i].Claimed? then 1 else 0)
    ensures Latest(log[..j], id).Some?
    ensures IsMark(log[i]) && Latest(log[..j], id).value.Claimed? ==> Claims(log[..j], id) > Claims(log[..i], id)
    decreases j
  {
    PrefixUnfolds(log, j, id);
    if i < j - 1 {
      ClaimsBetween(log, i, j - 1, id);
    }
  }

  /** Each (item, lease) pair is handed out at most once: later claims carry greater leases. */
  lemma {:induction false} LeasesIncrease(log: seq<Event>, i: nat, j: nat)
    requires GoodLog(log) && i < j < |log|
    requires log[i].Claimed? && log[j].Claimed? && log[i].id == log[j].id
    ensures log[i].leaseId < log[j].leaseId
  {
    GoodAt(log, i);
    GoodAt(log, j);
    ClaimsBetween(log, i, j, log[i].id);
  }

  /** At most one mark is accepted per (item, lease) pair, whichever two marks are tried. */
  lemma {:induction false} OneMarkPerLease(log: seq<Event>, i: nat, j: nat)
    requires GoodLog(log) && i < j < |log|
    requires IsMark(log[i]) && IsMark(log[j]) && log[i].id == log[j].id
    ensures log[i].leaseId < log[j].leaseId
  {
    GoodAt(log, i);
    GoodAt(log, j);
    ClaimsBetween(log, i, j, log[i].id);
  }

  lemma {:induction false} LatestStands(log: seq<Event>, j: nat, id: string) returns (k: nat)
    requires j <= |log| && Latest(log[..j], id).Some?
    ensures k < j && log[k] == Latest(log[..j], id).value
    ensures forall m :: k < m < j ==> !About(log[m], id)
    ensures Claims(log[..j], id) == Claims(log[..k], id) + (if log[k].Claimed? then 1 else 0)
    decreases j
  {
    PrefixUnfolds(log, j, id);
    if About(log[j - 1], id) {
      k := j - 1;
    } else {
      k := LatestStands(log, j - 1, id);
    }
  }

  /** An accepted mark belongs to the latest claim of its item: that very lease was handed out, and
      nothing happened to the item in between. */
  lemma MarkFollowsItsClaim(log: seq<Event>, i: nat) returns (k: nat)
    requires GoodLog(log) && i < |log| && IsMark(log[i])
    ensures k < i && log[k].Claimed? && log[k].id == log[i].id && log[k].leaseId == log[i].leaseId
    ensures forall m :: k < m < i ==> !About(log[m], log[i].id)
  {
    GoodAt(log, i);
    k := LatestStands(log, i, log[i].id);
    GoodAt(log, k);
  }

  /** Succeeded is final: nothing is accepted for the item ever after. */
  lemma {:induction false} NothingAfterDone(log: seq<Event>, i: nat, j: nat)
    requires GoodLog(log) && i < j < |log| && log[i].Done?
    ensures !About(log[j], log[i].id)
  {
    GoodAt(log, j);
    LatestStaysDone(log, i, j);
  }

  lemma {:induction false} LatestStaysDone(log: seq<Event>, i: nat, j: nat)
    requires GoodLog(log) && i < j <= |log| && log[i].Done?
    ensures Latest(log[..j], log[i].id) == Some(log[i])
    decreases j
  {
    PrefixUnfolds(log, j, log[i].id);
    if i < j - 1 {
      LatestStaysDone(log, i, j - 1);
      GoodAt(log, j - 1);
    }
  }

  lemma {:induction false} LeaseHolds(log: seq<Event>, i: nat, j: nat)
    requires GoodLog(log) && i < j <= |log| && log[i].Claimed?
    requires forall m :: i < m < j ==> !(log[m].Failed? && log[m].id == log[i].id)
    ensures var latest := Latest(log[..j], log[i].id);
            latest.Some? && (latest.value.Done? || (latest.value.Claimed? && log[i].now <= latest.value.now))
    decreases j
  {
    PrefixUnfolds(log, j, log[i].id);
    if i < j - 1 {
      LeaseHolds(log, i, j - 1);
      GoodAt(log, j - 1);
    }
  }

  /** Leases are exclusive: two claims of one item with no accepted failure between them carry clock
      readings at least the lease time apart. */
  lemma {:induction false} LeasesAreExclusive(log: seq<Event>, i: nat, j: nat)
    requires GoodLog(log) && i < j < |log|
    requires log[i].Claimed? && log[j].Claimed? && log[i].id == log[j].id
    requires forall m :: i < m < j ==> !(log[m].Failed? && log[m].id == log[i].id)
    ensures log[j].now - log[i].now >= 300_000
  {
    LeaseHolds(log, i, j);
    GoodAt(log, j);
  }

  // ----- what every run keeps -----

  /** Rows are conserved: none disappears, the identity columns never change, a succeeded row never
      changes at all, and leases never go back. */
  lemma StepConservesRows(r: Run, s: Step)
    requires Inv(r)
    ensures var t' := Next(r, s).table;
            forall id :: id in r.table ==>
              (id in t' && t'[id].payloadHash == r.table[id].payloadHash && t'[id].createdAt == r.table[id].createdAt
               && r.table[id].leaseId <= t'[id].leaseId
               && (r.table[id].status.Succeeded? ==> t'[id] == r.table[id]))
    ensures r.log <= Next(r, s).log
  {
    hide GoodLog, RowMatches, Batch;
    if s.DoClaim? {
      BatchKeys(r.table, s.now, s.limit);
      LeaseAllRows(r.table, Batch(r.table, s.now, s.limit), s.now);
    }
  }

  /** In every reachable state the log of accepted operations determines the table: it holds exactly the
      enqueued items, each with attempts and lease counting its claims, and with the status and times of
      its latest claim or mark. */
  lemma {:induction false} LogDeterminesTable(steps: seq<Step>, id: string)
    ensures id in After(steps).table <==> Enlisting(After(steps).log, id).Some?
    ensures id in After(steps).table ==> After(steps).table[id] == RowOf(After(steps).log, id)
    ensures id in After(steps).table ==>
              After(steps).table[id].attempts == After(steps).table[id].leaseId == Claims(After(steps).log, id)
  {
    ReachableInv(steps);
    assert id in After(steps).table ==> RowMatches(After(steps).log, After(steps).table[id]);
  }

  // ----- nothing is lost -----

  /** Whether an item may be claimed, as its history tells: a new one from the time it was enqueued for,
      a failed one from the time of its retry, a claimed one when its claimer has had it for five minutes,
      a succeeded one never. */
  predicate DueByLog(log: seq<Event>, id: string, now: int) {
    var first, latest := Enlisting(log, id), Latest(log, id);
    if first.None? then false
    else if latest.None? then
      if first.value.nextAttemptAt.Some? then first.value.nextAttemptAt.value <= now else first.value.createdAt <= now
    else if latest.value.Failed? then latest.value.retryAt <= now
    else if latest.value.Done? then false
    else now - latest.value.now >= 300_000
  }

  predicate HandsOut(items: seq<Item>, id: string) {
    exists i :: 0 <= i < |items| && items[i].id == id
  }

  lemma EligibleByLog(r: Run, id: string, now: int)
    requires Inv(r)
    ensures id in r.table && Eligible(r.table[id], now) <==> DueByLog(r.log, id, now)
  {
    if id in r.table {
      assert RowMatches(r.log, r.table[id]);
    }
  }

  /** These items are handed out only if due by the log, and one that is due is left out only when there
      are as many as may be, all of them before it in (created_at, id). */
  predicate HandsOutTheDue(r: Run, items: seq<Item>, now: int, limit: nat) {
    && |items| <= limit
    && (forall i :: 0 <= i < |items| ==> DueByLog(r.log, items[i].id, now))
    && (forall id :: id in r.table && DueByLog(r.log, id, now) && !HandsOut(items, id) ==>
          |items| == limit &&
          forall i :: 0 <= i < |items| ==> Before(Key(items[i].createdAt, items[i].id), Key(r.table[id].createdAt, id)))
  }

  /** In every reachable state a claim hands out exactly what is due by the log, as far as its limit goes:
      with enough room every such item, abandoned ones among them. */
  lemma {:induction false} ClaimHandsOutTheDue(steps: seq<Step>, now: int, limit: nat)
    ensures HandsOutTheDue(After(steps), Claim(After(steps).table, now, limit).1, now, limit)
    ensures forall id :: DueByLog(After(steps).log, id, now) ==> id in After(steps).table
  {
    ReachableInv(steps);
    hide After;
    ClaimKeepsToTheLog(After(steps), now, limit);
    forall id | DueByLog(After(steps).log, id, now) ensures id in After(steps).table {
      EligibleByLog(After(steps), id, now);
    }
  }

  lemma ClaimKeepsToTheLog(r: Run, now: int, limit: nat)
    requires Inv(r)
    ensures HandsOutTheDue(r, Claim(r.table, now, limit).1, now, limit)
  {
    hide GoodLog, RowMatches, DueByLog, Eligible, Claim, Before;
    var items := Claim(r.table, now, limit).1;
    ClaimHandsOutEligible(r.table, now, limit, "");
    forall i | 0 <= i < |items| ensures DueByLog(r.log, items[i].id, now) {
      EligibleByLog(r, items[i].id, now);
      ClaimHandsOutEligible(r.table, now, limit, items[i].id);
    }
    forall id | id in r.table && DueByLog(r.log, id, now) && !HandsOut(items, id)
      ensures |items| == limit
      ensures forall i :: 0 <= i < |items| ==> Before(Key(items[i].createdAt, items[i].id), Key(r.table[id].createdAt, id))
    {
      EligibleByLog(r, id, now);
      ClaimHandsOutEligible(r.table, now, limit, id);
    }
  }

  /** By the log, the item is out under this lease: claimed under it, and not marked since. */
  predicate Out(log: seq<Event>, id: string, leaseId: nat) {
    Latest(log, id).Some? && Latest(log, id).value.Claimed? && Latest(log, id).value.leaseId == leaseId
  }

  lemma FencedByLog(r: Run, id: string, leaseId: nat)
    requires Inv(r)
    ensures Fenced(r.table, id, leaseId) <==> Out(r.log, id, leaseId)
  {
    if id in r.table {
      assert RowMatches(r.log, r.table[id]);
      LatestClaimCounts(r.log, id);
    } else {
      NeverTouched(r.log, id);
    }
  }

  /** The latest claim carries the number of claims as its lease. */
  lemma {:induction false} LatestClaimCounts(log: seq<Event>, id: string)
    requires GoodLog(log)
    ensures Latest(log, id).Some? && Latest(log, id).value.Claimed? ==> Latest(log, id).value.leaseId == Claims(log, id)
  {
    if log != [] && !(log[|log| - 1].id == id && !log[|log| - 1].Enqueued?) {
      LatestClaimCounts(log[..|log| - 1], id);
    }
  }

  /** Each of these items is out under its next lease, as it now stands in the table. */
  predicate LetsOut(r: Run, r': Run, items: seq<Item>, now: int) {
    && r.log <= r'.log && |r'.log| == |r.log| + |items|
    && forall i :: 0 <= i < |items| ==>
         (r'.log[|r.log| + i] == Claimed(items[i].id, Claims(r.log, items[i].id) + 1, now)
          && items[i].id in r'.table && items[i] == r'.table[items[i].id])
  }

  /** What a step does, told by the log alone: an item is enqueued unless it was before; a mark is accepted
      exactly while its item is out under its lease; a claim lets out what is due, each item under its next
      lease. */
  predicate ActsByLog(r: Run, s: Step, r': Run)
    requires WellKeyed(r.table)
  {
    match s
    case DoEnqueue(id, payloadHash, createdAt, nextAttemptAt) =>
      r'.log == r.log + if Enlisting(r.log, id).None? then [Enqueued(id, payloadHash, createdAt, nextAttemptAt)] else []
    case DoFail(id, leaseId, retryAt, updatedAt) =>
      r'.log == r.log + if Out(r.log, id, leaseId) then [Failed(id, leaseId, retryAt, updatedAt)] else []
    case DoSucceed(id, leaseId, updatedAt) =>
      r'.log == r.log + if Out(r.log, id, leaseId) then [Done(id, leaseId, updatedAt)] else []
    case DoClaim(now, limit) =>
      var items := Claim(r.table, now, limit).1;
      HandsOutTheDue(r, items, now, limit) && LetsOut(r, r', items, now)
  }

  lemma {:induction false} StepsByLog(steps: seq<Step>, s: Step)
    ensures ActsByLog(After(steps), s, After(steps + [s]))
  {
    ReachableInv(steps);
    assert (steps + [s])[..|steps|] == steps;
    var r := After(steps);
    hide ActsByLog, Inv;
    match s
    case DoEnqueue(_, _, _, _) => EnqueuesByLog(r, s);
    case DoClaim(_, _) => ClaimsByLog(r, s);
    case _ => MarksByLog(r, s);
  }

  lemma EnqueuesByLog(r: Run, s: Step)
    requires Inv(r) && s.DoEnqueue?
    ensures ActsByLog(r, s, Next(r, s))
  {
    hide GoodLog, RowMatches, Claim, MarkFailed, MarkSucceeded;
  }

  lemma MarksByLog(r: Run, s: Step)
    requires Inv(r) && (s.DoFail? || s.DoSucceed?)
    ensures ActsByLog(r, s, Next(r, s))
  {
    FencedByLog(r, s.id, s.leaseId);
    hide Inv, Fenced, Out, Claim, Enqueue;
  }

  lemma ClaimsByLog(r: Run, s: Step)
    requires Inv(r) && s.DoClaim?
    ensures ActsByLog(r, s, Next(r, s))
  {
    ClaimKeepsToTheLog(r, s.now, s.limit);
    ClaimLogs(r, s.now, s.limit);
    hide GoodLog, RowMatches, Claim, HandsOutTheDue, LetsOut, Next;
  }

  lemma ClaimLogs(r: Run, now: int, limit: nat)
    requires Inv(r)
    ensures LetsOut(r, Next(r, DoClaim(now, limit)), Claim(r.table, now, limit).1, now)
  {
    hide GoodLog, RowMatches, Eligible, Batch, Claims, Claim, Due, Next, LetsOut, ClaimEvents;
    ClaimLeasesLeastDue(r.table, now, limit);
    var batch, items := Batch(r.table, now, limit), Claim(r.table, now, limit).1;
    forall i | 0 <= i < |items| ensures items[i].id == batch[i].id && items[i].leaseId == Claims(r.log, items[i].id) + 1 {
      LeaseCounts(r, batch[i].id);
    }
    ClaimStep(r, now, limit);
    LetsOutBy(r, Next(r, DoClaim(now, limit)), items, now);
  }

  lemma {:induction false} LetsOutBy(r: Run, r': Run, items: seq<Item>, now: int)
    requires r'.log == r.log + ClaimEvents(items, now)
    requires forall i :: 0 <= i < |items| ==>
      items[i].leaseId == Claims(r.log, items[i].id) + 1 && items[i].id in r'.table && items[i] == r'.table[items[i].id]
    ensures LetsOut(r, r', items, now)
  {
    hide Claims;
  }

  lemma {:induction false} LeaseCounts(r: Run, id: string)
    requires Inv(r) && id in r.table
    ensures r.table[id].id == id && r.table[id].leaseId == Claims(r.log, id)
  {
    hide GoodLog, Claims;
    assert RowMatches(r.log, r.table[id]);
  }

  lemma {:induction false} ClaimStep(r: Run, now: int, limit: nat)
    requires WellKeyed(r.table)
    ensures var (t', items) := Claim(r.table, now, limit);
            Next(r, DoClaim(now, limit)) == Run(t', r.log + ClaimEvents(items, now))
  {
    hide Claim;
  }
}
