/** The outbox table: enqueue, claim under a lease, mark failed, mark succeeded. */
module Outbox {
  import opened Wrappers
  import opened Ordering

  datatype ItemStatus = Pending | Processing | Succeeded

  datatype Item = Item(id: string, status: ItemStatus, attempts: nat, leaseId: nat,
                       nextAttemptAt: Option<int>, payloadHash: string, createdAt: int, updatedAt: int)

  type Table = map<string, Item>

  /** How long a claimed item stays with its claimer, in milliseconds. */
  const LEASE_MS := 300_000

  predicate WellKeyed(t: Table) {
    forall id :: id in t ==> t[id].id == id
  }

  function Enqueue(t: Table, id: string, payloadHash: string, createdAt: int, nextAttemptAt: Option<int>): Table {
    if id in t then t
    else
      var at := if nextAttemptAt.Some? then nextAttemptAt.value else createdAt;
      t[id := Item(id, Pending, 0, 0, Some(at), payloadHash, createdAt, createdAt)]
  }

  /** The WHERE clause of the claim: due for an attempt, or abandoned by its last claimer. */
  predicate Eligible(item: Item, now: int) {
    || (item.status.Pending? && (item.nextAttemptAt.None? || item.nextAttemptAt.value <= now))
    || (item.status.Processing? && item.updatedAt <= now - LEASE_MS)
  }

  function Due(t: Table, now: int): (ks: set<Key>)
    requires WellKeyed(t)
    ensures forall k :: k in ks <==> k.id in t && Eligible(t[k.id], now) && t[k.id].createdAt == k.at
  {
    set id | id in t && Eligible(t[id], now) :: Key(t[id].createdAt, id)
  }

  /** ORDER BY created_at ASC, id ASC LIMIT limit. */
  function Batch(t: Table, now: int, limit: nat): seq<Key>
    requires WellKeyed(t)
  {
    Take(Sorted(Due(t, now)), limit)
  }

  function Leased(item: Item, now: int): Item {
    item.(status := Processing, attempts := item.attempts + 1, leaseId := item.leaseId + 1,
          nextAttemptAt := None, updatedAt := now)
  }

  /** The UPDATE loop over the selected rows. */
  function LeaseAll(t: Table, batch: seq<Key>, now: int): (t': Table)
    ensures t'.Keys == t.Keys
    ensures WellKeyed(t) ==> WellKeyed(t')
  {
    if batch == [] || batch[0].id !in t then t
    else LeaseAll(t[batch[0].id := Leased(t[batch[0].id], now)], batch[1..], now)
  }

  function Claim(t: Table, now: int, limit: nat): (Table, seq<Item>)
    requires WellKeyed(t)
  {
    var batch := Batch(t, now, limit);
    var t' := LeaseAll(t, batch, now);
    (t', ItemsAt(t', batch))
  }

  function ItemsAt(t: Table, batch: seq<Key>): seq<Item> {
    if batch == [] then []
    else (if batch[0].id in t then [t[batch[0].id]] else []) + ItemsAt(t, batch[1..])
  }

  /** The fence of both marks: the row is being processed under exactly this lease. */
  predicate Fenced(t: Table, id: string, leaseId: nat) {
    id in t && t[id].status.Processing? && t[id].leaseId == leaseId
  }

  function MarkFailed(t: Table, id: string, leaseId: nat, nextAttemptAt: int, updatedAt: int): Option<Table> {
    if Fenced(t, id, leaseId)
    then Some(t[id := t[id].(status := Pending, nextAttemptAt := Some(nextAttemptAt), updatedAt := updatedAt)])
    else None
  }

  function MarkSucceeded(t: Table, id: string, leaseId: nat, updatedAt: int): Option<Table> {
    if Fenced(t, id, leaseId)
    then Some(t[id := t[id].(status := Succeeded, nextAttemptAt := None, updatedAt := updatedAt)])
    else None
  }

  // ----- what a claim hands out -----

  lemma BatchKeys(t: Table, now: int, limit: nat)
    requires WellKeyed(t)
    ensures var batch := Batch(t, now, limit);
            && Ascending(batch)
            && (forall i :: 0 <= i < |batch| ==> batch[i] in Due(t, now))
            && (forall i, j :: 0 <= i < j < |batch| ==> batch[i].id != batch[j].id)
  {
    hide Before;
    var due := Due(t, now);
    SortedAscends(due);
    var batch := Batch(t, now, limit);
    forall i | 0 <= i < |batch| ensures batch[i] in due {
      assert batch[i] in Sorted(due);
    }
    forall i, j | 0 <= i < j < |batch| ensures batch[i].id != batch[j].id {
      BeforeIrreflexive(batch[i]);
      assert Before(batch[i], batch[j]);
    }
  }

  /** LeaseAll rewrites exactly the rows of the batch, each once. */
  lemma {:induction false} LeaseAllRows(t: Table, batch: seq<Key>, now: int)
    requires forall i :: 0 <= i < |batch| ==> batch[i].id in t
    requires forall i, j :: 0 <= i < j < |batch| ==> batch[i].id != batch[j].id
    ensures var t' := LeaseAll(t, batch, now);
            && t'.Keys == t.Keys
            && (forall i :: 0 <= i < |batch| ==> t'[batch[i].id] == Leased(t[batch[i].id], now))
            && (forall id :: id in t && (forall i :: 0 <= i < |batch| ==> batch[i].id != id) ==> t'[id] == t[id])
    decreases |batch|
  {
    if batch != [] {
      var id, rest := batch[0].id, batch[1..];
      var t1 := t[id := Leased(t[id], now)];
      LeaseAllRows(t1, rest, now);
      assert forall i :: 0 < i < |batch| ==> batch[i] == rest[i - 1];
      assert forall i :: 0 <= i < |rest| ==> rest[i] == batch[i + 1];
    }
  }

  lemma {:induction false} ItemsOfBatch(t: Table, batch: seq<Key>)
    requires forall i :: 0 <= i < |batch| ==> batch[i].id in t
    ensures |ItemsAt(t, batch)| == |batch|
    ensures forall i :: 0 <= i < |batch| ==> ItemsAt(t, batch)[i] == t[batch[i].id]
  {
    if batch != [] {
      ItemsOfBatch(t, batch[1..]);
      assert forall i :: 0 < i < |batch| ==> batch[i] == batch[1..][i - 1];
    }
  }

  /** A claim leases exactly the `limit` least due items by (created_at, id), hands them out in that
      order as they now stand in the table, and touches no other row. */
  lemma ClaimLeasesLeastDue(t: Table, now: int, limit: nat)
    requires WellKeyed(t)
    ensures var (t', items) := Claim(t, now, limit);
            var batch := Batch(t, now, limit);
            && |items| == |batch| == (if |Due(t, now)| <= limit then |Due(t, now)| else limit)
            && t'.Keys == t.Keys
            && (forall i :: 0 <= i < |items| ==>
                  (batch[i].id in t && Eligible(t[batch[i].id], now) && t[batch[i].id].createdAt == batch[i].at
                   && items[i] == Leased(t[batch[i].id], now) && t'[batch[i].id] == items[i]))
            && (forall id :: id in t && (forall i :: 0 <= i < |batch| ==> batch[i].id != id) ==> t'[id] == t[id])
  {
    hide Before, Eligible;
    BatchKeys(t, now, limit);
    LeaseAllRows(t, Batch(t, now, limit), now);
    ItemsOfBatch(LeaseAll(t, Batch(t, now, limit), now), Batch(t, now, limit));
  }

  /** The batch is in order, and every due item it leaves out comes after all of it. */
  lemma ClaimTakesTheLeast(t: Table, now: int, limit: nat, k: Key, i: nat)
    requires WellKeyed(t) && k in Due(t, now) && k !in Batch(t, now, limit) && i < |Batch(t, now, limit)|
    ensures Before(Batch(t, now, limit)[i], k) && Ascending(Batch(t, now, limit))
  {
    hide Before;
    var due, batch := Sorted(Due(t, now)), Batch(t, now, limit);
    SortedAscends(Due(t, now));
    var j :| 0 <= j < |due| && due[j] == k;
    assert j >= |batch|;
  }

  lemma ClaimHandsOutEligible(t: Table, now: int, limit: nat, id: string)
    requires WellKeyed(t)
    ensures var items := Claim(t, now, limit).1;
            && |items| <= limit
            && (forall i :: 0 <= i < |items| && items[i].id == id ==> id in t && Eligible(t[id], now))
            && (id in t && Eligible(t[id], now) && (forall i :: 0 <= i < |items| ==> items[i].id != id) ==>
                 |items| == limit &&
                 forall i :: 0 <= i < |items| ==> Before(Key(items[i].createdAt, items[i].id), Key(t[id].createdAt, id)))
  {
    var items, batch := Claim(t, now, limit).1, Batch(t, now, limit);
    ClaimLeasesLeastDue(t, now, limit);
    hide Claim, Batch, Eligible, Before;
    forall i | 0 <= i < |items| ensures items[i].id == batch[i].id && Key(items[i].createdAt, items[i].id) == batch[i] {
      assert t[batch[i].id].id == batch[i].id;
    }
    if id in t && Eligible(t[id], now) && forall i :: 0 <= i < |items| ==> items[i].id != id {
      var k := Key(t[id].createdAt, id);
      assert k in Due(t, now) && k !in batch;
      LeftOutMeansFull(t, now, limit, k);
      forall i | 0 <= i < |items| ensures Before(batch[i], k) {
        ClaimTakesTheLeast(t, now, limit, k, i);
      }
    }
  }

  lemma LeftOutMeansFull(t: Table, now: int, limit: nat, k: Key)
    requires WellKeyed(t) && k in Due(t, now) && k !in Batch(t, now, limit)
    ensures |Batch(t, now, limit)| == limit
  {
    hide Before;
    SortedAscends(Due(t, now));
  }
}
