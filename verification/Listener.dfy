/** The listener registry: one-shot waiters that settle by match, timeout, abort, cancel or clear. */
module Listener {
  import opened Wrappers

  type Update = int

  /** What a filter's predicate does with an update. */
  datatype Verdict = Match | NoMatch | Throws

  type Filter = Update -> Verdict

  datatype Reason = TimedOut | Cancelled | SignalAborted | RegistryCleared

  /** How a handle's promise was settled, each resolve or reject call in order. */
  datatype Outcome = Resolved(update: Update) | Rejected(reason: Reason)

  datatype RegisterError = MaxListenersExceeded

  datatype Evaluation = Matched(at: nat) | Unmatched | Threw(at: nat)

  // ----- first match wins -----

  /** Entries are tried in registration order up to the first that matches or throws. */
  function FirstMatch(filters: seq<Filter>, update: Update): Evaluation {
    if filters == [] then Unmatched
    else match filters[0](update)
         case Match => Matched(0)
         case Throws => Threw(0)
         case NoMatch =>
           match FirstMatch(filters[1..], update)
           case Matched(i) => Matched(i + 1)
           case Threw(i) => Threw(i + 1)
           case Unmatched => Unmatched
  }

  /** The first listener that does not pass on an update decides: a match takes it, a throwing
      predicate stops the search. */
  lemma {:induction false} FirstMatchIsTheFirst(filters: seq<Filter>, update: Update, i: nat)
    ensures FirstMatch(filters, update) == Matched(i) <==>
              i < |filters| && filters[i](update) == Match && forall j :: 0 <= j < i ==> filters[j](update) == NoMatch
    ensures FirstMatch(filters, update) == Threw(i) <==>
              i < |filters| && filters[i](update) == Throws && forall j :: 0 <= j < i ==> filters[j](update) == NoMatch
    ensures FirstMatch(filters, update) == Unmatched <==> forall j :: 0 <= j < |filters| ==> filters[j](update) == NoMatch
    decreases |filters|
  {
    if filters != [] {
      var rest := filters[1..];
      assert forall j :: 0 <= j < |rest| ==> rest[j] == filters[j + 1];
      assert forall j :: 0 < j < |filters| ==> filters[j] == rest[j - 1];
      if i > 0 {
        FirstMatchIsTheFirst(rest, update, i - 1);
      } else {
        FirstMatchIsTheFirst(rest, update, 0);
      }
    }
  }

  // ----- the objects -----

  class Entry {
    const filter: Filter
    var timer: bool
    var abortHook: bool
    var settled: bool
    var cancelled: bool
    var outcomes: seq<Outcome>

    constructor (filter: Filter)
      ensures this.filter == filter && !timer && !abortHook && !settled && !cancelled && outcomes == []
    {
      this.filter := filter;
      timer, abortHook, settled, cancelled, outcomes := false, false, false, false, [];
    }

    /** A settled entry was settled once and holds no timer or abort hook; a pending one not at all. */
    predicate Sound()
      reads this
    {
      && (settled ==> |outcomes| == 1 && !timer && !abortHook)
      && (!settled ==> outcomes == [] && !cancelled)
    }
  }

  function Without(entries: seq<Entry>, e: Entry): (rest: seq<Entry>)
    ensures forall i :: 0 <= i < |rest| ==> rest[i] in entries && rest[i] != e
    ensures forall i :: 0 <= i < |entries| && entries[i] != e ==> entries[i] in rest
    ensures |rest| <= |entries|
  {
    if entries == [] then []
    else if entries[0] == e then Without(entries[1..], e)
    else [entries[0]] + Without(entries[1..], e)
  }

  predicate Distinct(entries: seq<Entry>) {
    forall i, j :: 0 <= i < j < |entries| ==> entries[i] != entries[j]
  }

  lemma {:induction false} WithoutKeepsOrder(entries: seq<Entry>, e: Entry)
    requires Distinct(entries)
    ensures Distinct(Without(entries, e))
    ensures |Without(entries, e)| == if e in entries then |entries| - 1 else |entries|
  {
    if entries != [] {
      WithoutKeepsOrder(entries[1..], e);
      assert entries[0] !in entries[1..] by {
        assert forall i :: 0 <= i < |entries[1..]| ==> entries[1..][i] == entries[i + 1];
      }
      assert forall x :: x in Without(entries[1..], e) ==> x in entries[1..];
    }
  }

  function Filters(entries: seq<Entry>): (fs: seq<Filter>)
    ensures |fs| == |entries|
    ensures forall i :: 0 <= i < |entries| ==> fs[i] == entries[i].filter
  {
    if entries == [] then [] else [entries[0].filter] + Filters(entries[1..])
  }

  class ListenerRegistry {
    const maxActive: nat
    /** The pending entries, in registration order. */
    var entries: seq<Entry>
    /** Every handle ever returned. */
    ghost var issued: set<Entry>

    ghost predicate Valid()
      reads this, issued
    {
      && Distinct(entries) && |entries| <= maxActive
      && (forall e :: e in entries ==> e in issued)
      && (forall e :: e in issued ==> e.Sound() && (e.settled <==> e !in entries))
    }

    constructor (maxActive: nat)
      ensures Valid() && entries == [] && issued == {} && this.maxActive == maxActive
    {
      this.maxActive := maxActive;
      entries, issued := [], {};
    }

    function ActiveCount(): nat
      reads this
    {
      |entries|
    }

    /** The number of active listeners is the number of unsettled handles. */
    lemma ActiveCountIsUnsettled()
      requires Valid()
      ensures ActiveCount() == |set e | e in issued && !e.settled| <= maxActive
    {
      DistinctCount(entries);
      assert (set e | e in issued && !e.settled) == (set e | e in entries);
    }

    static lemma {:induction false} DistinctCount(entries: seq<Entry>)
      requires Distinct(entries)
      ensures |set e | e in entries| == |entries|
    {
      if entries != [] {
        var rest := entries[1..];
        DistinctCount(rest);
        assert entries[0] !in rest by {
          assert forall i :: 0 <= i < |rest| ==> rest[i] == entries[i + 1];
        }
        assert (set e | e in entries) == (set e | e in rest) + {entries[0]};
      }
    }

    /** A full registry refuses; an aborted signal gives a handle settled from the start, which never
        counts as active; otherwise the entry joins the end of the line, then gets timer and hook. */
    method Register(filter: Filter, timed: bool, hasSignal: bool, aborted: bool) returns (r: Result<Entry, RegisterError>)
      requires Valid()
      modifies this
      ensures Valid()
      ensures r.Err? <==> |old(entries)| >= maxActive
      ensures r.Err? ==> entries == old(entries) && issued == old(issued)
      ensures r.Ok? ==> fresh(r.value) && r.value.filter == filter && issued == old(issued) + {r.value}
      ensures r.Ok? && hasSignal && aborted ==> r.value.outcomes == [Rejected(SignalAborted)] && entries == old(entries)
      ensures r.Ok? && !(hasSignal && aborted) ==>
                !r.value.settled && entries == old(entries) + [r.value] && r.value.timer == timed && r.value.abortHook == hasSignal
    {
      if |entries| >= maxActive {
        return Err(MaxListenersExceeded);
      }
      var e := new Entry(filter);
      issued := issued + {e};
      if hasSignal && aborted {
        e.settled := true;
        e.outcomes := [Rejected(SignalAborted)];
        return Ok(e);
      }
      entries := entries + [e];
      e.timer := timed;
      e.abortHook := hasSignal;
      return Ok(e);
    }

    /** finalize() and the settling call that follows it. */
    method SettleEntry(e: Entry, outcome: Outcome)
      requires Valid() && e in issued && !e.settled
      modifies this`entries, e
      ensures Valid() && issued == old(issued)
      ensures e.settled && e.outcomes == [outcome] && e.cancelled == old(e.cancelled)
      ensures entries == Without(old(entries), e)
    {
      WithoutKeepsOrder(entries, e);
      e.settled := true;
      e.timer := false;
      e.abortHook := false;
      entries := Without(entries, e);
      e.outcomes := e.outcomes + [outcome];
    }

    /** The timer, the abort listener and cancel() do nothing to an entry that is settled already. */
    method Interrupt(e: Entry, reason: Reason)
      requires Valid() && e in issued && reason != RegistryCleared
      modifies this`entries, e
      ensures Valid() && issued == old(issued)
      ensures e.settled
      ensures old(e.settled) ==> e.outcomes == old(e.outcomes) && e.cancelled == old(e.cancelled) && entries == old(entries)
      ensures !old(e.settled) ==>
                (e.outcomes == [Rejected(reason)] && entries == Without(old(entries), e) && e.cancelled == (reason == Cancelled))
    {
      if e.settled {
        return;
      }
      SettleEntry(e, Rejected(reason));
      if reason == Cancelled {
        e.cancelled := true;
      }
    }

    /** The earliest registered match is taken out and resolved with the update; every other entry
        stays as it is. A throwing predicate leaves the registry alone. */
    method Evaluate(update: Update) returns (result: Evaluation)
      requires Valid()
      modifies this`entries, entries
      ensures Valid() && issued == old(issued)
      ensures result == FirstMatch(Filters(old(entries)), update)
      ensures !result.Matched? ==> entries == old(entries) && forall e :: e in old(issued) ==> unchanged(e)
      ensures result.Matched? ==>
                result.at < |old(entries)| &&
                var e := old(entries)[result.at];
                && e.outcomes == [Resolved(update)] && e.settled && entries == Without(old(entries), e)
                && forall x :: x in old(issued) && x != e ==> unchanged(x)
    {
      hide FirstMatch, Without;
      var i := 0;
      while i < |entries|
        invariant 0 <= i <= |entries|
        invariant Valid() && entries == old(entries) && issued == old(issued)
        invariant forall e :: e in issued ==> unchanged(e)
        invariant forall j :: 0 <= j < i ==> Filters(entries)[j](update) == NoMatch
      {
        var verdict := entries[i].filter(update);
        FirstMatchIsTheFirst(Filters(entries), update, i);
        if verdict == Throws {
          return Threw(i);
        }
        if verdict == Match {
          result := Matched(i);
          SettleEntry(entries[i], Resolved(update));
          return;
        }
        i := i + 1;
      }
      FirstMatchIsTheFirst(Filters(entries), update, 0);
      result := Unmatched;
    }

    /** clear(): every pending entry is rejected, settled ones are left alone. */
    method Clear()
      requires Valid()
      modifies this`entries, entries
      ensures Valid() && issued == old(issued) && entries == []
      ensures forall e :: e in old(entries) ==> e.outcomes == [Rejected(RegistryCleared)]
      ensures forall e :: e in old(issued) && e !in old(entries) ==> unchanged(e)
    {
      var snapshot := entries;
      var i := 0;
      while i < |snapshot|
        invariant 0 <= i <= |snapshot| && snapshot == old(entries)
        invariant Valid() && issued == old(issued)
        invariant forall e :: e in entries <==> e in snapshot[i..]
        invariant |entries| == |snapshot| - i
        invariant forall j :: 0 <= j < i ==> snapshot[j].outcomes == [Rejected(RegistryCleared)]
        invariant forall e :: e in old(issued) && e !in old(entries) ==> unchanged(e)
      {
        assert snapshot[i..] == [snapshot[i]] + snapshot[i + 1..];
        assert snapshot[i] !in snapshot[i + 1..];
        WithoutKeepsOrder(entries, snapshot[i]);
        if !snapshot[i].settled {
          SettleEntry(snapshot[i], Rejected(RegistryCleared));
        }
        i := i + 1;
      }
    }
  }

  // ----- whole runs -----

  datatype Call =
    | CallRegister(filter: Filter, timed: bool, hasSignal: bool, aborted: bool)
    | CallInterrupt(pick: nat, reason: Reason)
    | CallEvaluate(update: Update)
    | CallClear

  /** Any sequence of calls, timers and aborts on one registry keeps it valid: so every handle ever
      issued is in the map exactly while unsettled, is settled at most once, keeps its outcome, and
      holds no timer or hook once settled. Interrupts reach any handle, settled or not. */
  method Drive(registry: ListenerRegistry, calls: seq<Call>) returns (handles: seq<Entry>)
    requires registry.Valid()
    modifies registry, registry.issued
    ensures registry.Valid() && fresh(registry.issued - old(registry.issued))
    ensures forall i :: 0 <= i < |handles| ==> handles[i] in registry.issued
    ensures forall e :: e in old(registry.issued) ==> e in registry.issued && (old(e.settled) ==> e.settled && e.outcomes == old(e.outcomes))
  {
    handles := [];
    var i := 0;
    while i < |calls|
      invariant registry.Valid() && fresh(registry.issued - old(registry.issued))
      invariant forall j :: 0 <= j < |handles| ==> handles[j] in registry.issued
      invariant forall e :: e in old(registry.issued) ==> e in registry.issued && (old(e.settled) ==> e.settled && e.outcomes == old(e.outcomes))
    {
      match calls[i] {
        case CallRegister(filter, timed, hasSignal, aborted) =>
          var r := registry.Register(filter, timed, hasSignal, aborted);
          if r.Ok? {
            handles := handles + [r.value];
          }
        case CallInterrupt(pick, reason) =>
          if pick < |handles| && reason != RegistryCleared {
            registry.Interrupt(handles[pick], reason);
          }
        case CallEvaluate(update) =>
          var result := registry.Evaluate(update);
        case CallClear =>
          registry.Clear();
      }
      i := i + 1;
    }
  }
}
