/** The table of keyed service requests: reserve, complete, legacy record, look up. */
module ServiceRequests {
  import opened Wrappers

  datatype RequestStatus = Claimed | Completed

  datatype Request = Request(requestHash: string, responseJson: Option<string>, createdAt: int,
                             claimedAt: Option<int>, status: RequestStatus)

  type Table = map<string, Request>

  datatype ClaimResult = Reserved | Pending | Conflict | Stored(responseJson: string)

  datatype Lookup = Nothing | LookupConflict | Found(responseJson: string)

  datatype CompletionError = NoClaim | HashMismatch | StaleReservation

  /** INSERT OR IGNORE of a reservation, then, if the key was taken, a second look at its row. */
  function Claim(t: Table, key: string, hash: string, createdAt: int): (Table, ClaimResult) {
    if key !in t then (t[key := Request(hash, None, createdAt, Some(createdAt), Claimed)], Reserved)
    else
      var row := t[key];
      (t, if row.requestHash != hash then Conflict
          else if row.status.Completed? && row.responseJson.Some? then Stored(row.responseJson.value)
          else Pending)
  }

  function Complete(t: Table, key: string, hash: string, responseJson: string, createdAt: int)
    : (Table, Result<(), CompletionError>)
  {
    if key !in t then (t, Err(NoClaim))
    else if t[key].requestHash != hash then (t, Err(HashMismatch))
    else if t[key].status.Completed? then (t, Ok(()))
    else (t[key := t[key].(responseJson := Some(responseJson), status := Completed, createdAt := createdAt)], Ok(()))
  }

  /** Completion as the two statements it is: the row is looked up in `t`, and updated, if it is still a
      reservation under the hash, in `later`, which other processes may have made of `t` by then. */
  function CompleteAround(t: Table, later: Table, key: string, hash: string, responseJson: string, createdAt: int)
    : (Table, Result<(), CompletionError>)
  {
    if key !in t then (later, Err(NoClaim))
    else if t[key].requestHash != hash then (later, Err(HashMismatch))
    else if t[key].status.Completed? then (later, Ok(()))
    else if key in later && later[key].requestHash == hash && later[key].status.Claimed? then
      (later[key := later[key].(responseJson := Some(responseJson), status := Completed, createdAt := createdAt)], Ok(()))
    else (later, Err(StaleReservation))
  }

  lemma CompleteInOneStep(t: Table, key: string, hash: string, responseJson: string, createdAt: int)
    ensures CompleteAround(t, t, key, hash, responseJson, createdAt) == Complete(t, key, hash, responseJson, createdAt)
  {
  }

  /** The reservation is reported stale exactly when another process has completed it in between, and
      then its response stays. */
  lemma StaleExactly(t: Table, later: Table, key: string, hash: string, responseJson: string, createdAt: int)
    requires Persists(t, later) && Consistent(t)
    ensures var (t', r) := CompleteAround(t, later, key, hash, responseJson, createdAt);
            && (r == Err(StaleReservation) <==>
                 key in t && t[key].requestHash == hash && t[key].status.Claimed? && later[key].status.Completed?)
            && Persists(t, t') && (r == Err(StaleReservation) ==> t' == later)
  {
  }

  /** The older interface: a completed row in one step, never over an existing one. */
  function Record(t: Table, key: string, hash: string, responseJson: string, createdAt: int): Table {
    if key in t then t else t[key := Request(hash, Some(responseJson), createdAt, None, Completed)]
  }

  function Get(t: Table, key: string, hash: string): Lookup {
    if key !in t then Nothing
    else if t[key].requestHash != hash then LookupConflict
    else if t[key].status.Claimed? || t[key].responseJson.None? then Nothing
    else Found(t[key].responseJson.value)
  }

  /** Completed rows are exactly those with a response. */
  predicate Consistent(t: Table) {
    forall k :: k in t ==> (t[k].status.Completed? <==> t[k].responseJson.Some?)
  }

  /** What any later state of the table still says: keys and hashes stay, responses never change. */
  predicate Persists(a: Table, b: Table) {
    forall k :: k in a ==>
      k in b && b[k].requestHash == a[k].requestHash
      && (a[k].responseJson.Some? ==> b[k].responseJson == a[k].responseJson)
      && (a[k].status.Completed? ==> b[k] == a[k])
  }
}

/** Keyed sends: any number of handlers claim, send and complete, interleaved, failing or crashing
    between any two steps. */
module KeyedSend {
  import opened Wrappers
  import opened ServiceRequests

  /** What the store offers: nothing configured, no claim/complete, or the atomic protocol. */
  datatype Capability = NoStore | NotAtomic | Atomic

  datatype ClaimOutcome = GoAhead | Waiting | HashConflict | Replay(responseJson: string) | Unsupported | Malformed

  /** How a claim result is read; an empty stored response is a store fault, not a replay. */
  function ReadClaim(result: ClaimResult): ClaimOutcome {
    match result
    case Reserved => GoAhead
    case Pending => Waiting
    case Conflict => HashConflict
    case Stored(json) => if |json| > 0 then Replay(json) else Malformed
  }

  function ClaimKeyedSend(store: Capability, t: Table, key: string, hash: string, now: int): (Table, ClaimOutcome) {
    match store
    case NoStore => (t, GoAhead)
    case NotAtomic => (t, Unsupported)
    case Atomic => var (t', result) := Claim(t, key, hash, now); (t', ReadClaim(result))
  }

  /** True when the response was durably stored; a fault or a rejected completion is swallowed. */
  function CompleteKeyedSend(store: Capability, t: Table, key: string, hash: string, json: string, now: int, fault: Fault)
    : (Table, bool)
  {
    match store
    case NoStore => (t, true)
    case NotAtomic => (t, false)
    case Atomic =>
      if fault.BeforeWrite? then (t, false)
      else var (t', result) := Complete(t, key, hash, json, now); (t', result.Ok? && fault.NoFault?)
  }

  /** Where a handler stands. Every way a handler can stop early (a failed claim, a failed send, an
      unserialisable result, a crash) ends in Gone. */
  datatype Handler =
    | Ready(key: string, hash: string)
    | Holding(key: string, hash: string)
    | Sent(key: string, hash: string, json: string)
    | Gone

  datatype Kind = Send | Replayed | Refused | Pended | Legacy

  /** `json` is the response sent back, if one is known. */
  datatype Event = Event(kind: Kind, key: string, hash: string, json: Option<string>)

  datatype System = System(table: Table, handlers: map<nat, Handler>, log: seq<Event>)

  const EMPTY := System(map[], map[], [])

  datatype Step =
    | Arrive(h: nat, key: string, hash: string)
    | DoClaim(h: nat, now: int, fault: Fault)
    | DoSend(h: nat, response: Option<string>)
    | DoComplete(h: nat, now: int, fault: Fault)
    | Crash(h: nat)
    | LegacyRecord(key: string, hash: string, json: string, now: int)

  function EventsOf(outcome: ClaimOutcome, key: string, hash: string): seq<Event> {
    match outcome
    case Replay(json) => [Event(Replayed, key, hash, Some(json))]
    case HashConflict => [Event(Refused, key, hash, None)]
    case Waiting => [Event(Pended, key, hash, None)]
    case _ => []
  }

  function ClaimStep(s: System, h: nat, key: string, hash: string, now: int, fault: Fault): System {
    var (t', outcome) := ClaimKeyedSend(Atomic, s.table, key, hash, now);
    match fault
    case NoFault => System(t', s.handlers[h := if outcome == GoAhead then Holding(key, hash) else Gone],
                           s.log + EventsOf(outcome, key, hash))
    case BeforeWrite => s.(handlers := s.handlers[h := Gone])
    case AfterWrite => System(t', s.handlers[h := Gone], s.log)
  }

  /** A handler only takes the step its position allows; a step it cannot take changes nothing.
      DoSend without a response is a send whose outcome is unknown: it may have reached the network. */
  function Next(s: System, step: Step): System {
    match step
    case Arrive(h, key, hash) =>
      if h in s.handlers then s else s.(handlers := s.handlers[h := Ready(key, hash)])
    case DoClaim(h, now, fault) =>
      if h in s.handlers && s.handlers[h].Ready? then
        ClaimStep(s, h, s.handlers[h].key, s.handlers[h].hash, now, fault)
      else s
    case DoSend(h, response) =>
      if h in s.handlers && s.handlers[h].Holding? then
        var key, hash := s.handlers[h].key, s.handlers[h].hash;
        System(s.table, s.handlers[h := if response.Some? then Sent(key, hash, response.value) else Gone],
               s.log + [Event(Send, key, hash, response)])
      else s
    case DoComplete(h, now, fault) =>
      if h in s.handlers && s.handlers[h].Sent? then
        var at := s.handlers[h];
        System(CompleteKeyedSend(Atomic, s.table, at.key, at.hash, at.json, now, fault).0, s.handlers[h := Gone], s.log)
      else s
    case Crash(h) =>
      if h in s.handlers then s.(handlers := s.handlers[h := Gone]) else s
    case LegacyRecord(key, hash, json, now) =>
      System(Record(s.table, key, hash, json, now), s.handlers,
             if key in s.table then s.log else s.log + [Event(Legacy, key, hash, Some(json))])
  }

  function After(steps: seq<Step>): System {
    if steps == [] then EMPTY else Next(After(steps[..|steps| - 1]), steps[|steps| - 1])
  }

  // ----- the invariant -----

  predicate Has(log: seq<Event>, kind: Kind, key: string) {
    exists e :: e in log && e.kind == kind && e.key == key
  }

  predicate Owns(handler: Handler, key: string) {
    (handler.Holding? || handler.Sent?) && handler.key == key
  }

  /** Every logged answer agrees with the row its key has now. */
  predicate EventAgrees(s: System, e: Event) {
    && e.key in s.table
    && match e.kind
       case Send => s.table[e.key].requestHash == e.hash
       case Pended => s.table[e.key].requestHash == e.hash
       case Replayed => s.table[e.key].requestHash == e.hash && e.json.Some? && s.table[e.key].responseJson == e.json
       case Refused => s.table[e.key].requestHash != e.hash
       case Legacy => s.table[e.key].requestHash == e.hash && e.json.Some? && s.table[e.key].responseJson == e.json
  }

  /** A stored response was produced under the stored hash by the send or by a legacy recording. */
  predicate ResponseProduced(s: System, key: string)
    requires key in s.table
  {
    s.table[key].responseJson.Some? ==>
      Event(Send, key, s.table[key].requestHash, s.table[key].responseJson) in s.log ||
      Event(Legacy, key, s.table[key].requestHash, s.table[key].responseJson) in s.log
  }

  /** A handler past its claim is the only one for its key and works on an open reservation. */
  predicate HandlerAgrees(s: System, h: nat)
    requires h in s.handlers
  {
    var at := s.handlers[h];
    at.Holding? || at.Sent? ==>
      && at.key in s.table && s.table[at.key].requestHash == at.hash && s.table[at.key].status.Claimed?
      && (at.Holding? ==> !Has(s.log, Send, at.key))
      && (at.Sent? ==> Event(Send, at.key, at.hash, Some(at.json)) in s.log)
      && forall g :: g in s.handlers && Owns(s.handlers[g], at.key) ==> g == h
  }

  predicate OneSendPerKey(log: seq<Event>) {
    forall i, j :: 0 <= i < j < |log| && log[i].kind == Send && log[j].kind == Send ==> log[i].key != log[j].key
  }

  ghost predicate Inv(s: System) {
    && Consistent(s.table)
    && (forall e :: e in s.log ==> EventAgrees(s, e))
    && (forall k :: k in s.table ==> ResponseProduced(s, k))
    && (forall h :: h in s.handlers ==> HandlerAgrees(s, h))
    && OneSendPerKey(s.log)
    && (forall e, f :: e in s.log && f in s.log && e.kind == Send && f.kind == Legacy ==> e.key != f.key)
  }

  lemma FreshClaimKeepsInv(s: System, h: nat, now: int, fault: Fault)
    requires Inv(s) && h in s.handlers && s.handlers[h].Ready? && s.handlers[h].key !in s.table
    ensures Inv(Next(s, DoClaim(h, now, fault)))
  {
    var key := s.handlers[h].key;
    var s' := Next(s, DoClaim(h, now, fault));
    assert s'.log == s.log;
    forall e | e in s.log ensures EventAgrees(s', e) && e.key != key {
      assert EventAgrees(s, e);
    }
    forall g | g in s'.handlers ensures HandlerAgrees(s', g) {
      assert g in s.handlers && HandlerAgrees(s, g);
    }
    forall k | k in s'.table ensures ResponseProduced(s', k) {
      assert k in s.table ==> ResponseProduced(s, k);
    }
  }

  /** A claim of a key that is taken changes no row; it answers from the row as it stands. */
  lemma TakenClaimAnswers(s: System, h: nat, now: int, fault: Fault)
    requires Inv(s) && h in s.handlers && s.handlers[h].Ready? && s.handlers[h].key in s.table
    ensures var s' := Next(s, DoClaim(h, now, fault));
            && s'.table == s.table && s'.handlers == s.handlers[h := Gone]
            && s.log <= s'.log && |s'.log| <= |s.log| + 1
            && (forall e :: e in s'.log ==> EventAgrees(s, e))
            && (|s'.log| > |s.log| ==> s'.log[|s.log|].kind != Send && s'.log[|s.log|].kind != Legacy)
            && (forall e :: e in s'.log && (e.kind == Send || e.kind == Legacy) ==> e in s.log)
  {
    hide Has, HandlerAgrees, ResponseProduced, OneSendPerKey;
    var s' := Next(s, DoClaim(h, now, fault));
    assert forall e :: e in s'.log ==> e in s.log || (e == s'.log[|s.log|] && |s'.log| > |s.log|);
  }

  lemma TakenClaimKeepsInv(s: System, h: nat, now: int, fault: Fault)
    requires Inv(s) && h in s.handlers && s.handlers[h].Ready? && s.handlers[h].key in s.table
    ensures Inv(Next(s, DoClaim(h, now, fault)))
  {
    var s' := Next(s, DoClaim(h, now, fault));
    TakenClaimAnswers(s, h, now, fault);
    hide Next, Has;
    forall e | e in s'.log ensures EventAgrees(s', e) {
      assert EventAgrees(s, e);
    }
    forall g | g in s'.handlers ensures HandlerAgrees(s', g) {
      assert HandlerAgrees(s, g);
    }
    forall k | k in s'.table ensures ResponseProduced(s', k) {
      assert ResponseProduced(s, k);
    }
  }

  lemma SendKeepsInv(s: System, h: nat, response: Option<string>)
    requires Inv(s) && h in s.handlers && s.handlers[h].Holding?
    ensures Inv(Next(s, DoSend(h, response)))
  {
    var key, hash := s.handlers[h].key, s.handlers[h].hash;
    var s' := Next(s, DoSend(h, response));
    assert HandlerAgrees(s, h);
    assert forall e :: e in s'.log <==> e in s.log || e == Event(Send, key, hash, response);
    forall e | e in s'.log ensures EventAgrees(s', e) && (e.kind == Legacy ==> e.key != key) {
      if e in s.log {
        assert EventAgrees(s, e);
      }
    }
    forall g | g in s'.handlers ensures HandlerAgrees(s', g) {
      assert HandlerAgrees(s, g);
      assert Owns(s.handlers[h], key);
    }
    forall k | k in s'.table ensures ResponseProduced(s', k) {
      assert ResponseProduced(s, k);
    }
  }

  lemma CompleteKeepsInv(s: System, h: nat, now: int, fault: Fault)
    requires Inv(s) && h in s.handlers && s.handlers[h].Sent?
    ensures Inv(Next(s, DoComplete(h, now, fault)))
  {
    var key := s.handlers[h].key;
    var s' := Next(s, DoComplete(h, now, fault));
    assert HandlerAgrees(s, h);
    assert Owns(s.handlers[h], key);
    assert s.table[key].responseJson == None;
    forall e | e in s'.log ensures EventAgrees(s', e) {
      assert EventAgrees(s, e);
    }
    forall g | g in s'.handlers ensures HandlerAgrees(s', g) {
      assert HandlerAgrees(s, g);
    }
    forall k | k in s'.table ensures ResponseProduced(s', k) {
      assert ResponseProduced(s, k);
    }
  }

  lemma LegacyKeepsInv(s: System, key: string, hash: string, json: string, now: int)
    requires Inv(s)
    ensures Inv(Next(s, LegacyRecord(key, hash, json, now)))
  {
    var s' := Next(s, LegacyRecord(key, hash, json, now));
    if key !in s.table {
      assert forall e :: e in s.log ==> EventAgrees(s, e) && e.key != key;
      assert forall e :: e in s'.log <==> e in s.log || e == Event(Legacy, key, hash, Some(json));
      forall g | g in s'.handlers ensures HandlerAgrees(s', g) {
        assert HandlerAgrees(s, g);
      }
      forall k | k in s'.table ensures ResponseProduced(s', k) {
        if k in s.table {
          assert ResponseProduced(s, k);
        }
      }
    }
  }

  lemma NextKeepsInv(s: System, step: Step)
    requires Inv(s)
    ensures Inv(Next(s, step))
  {
    match step
    case DoClaim(h, now, fault) =>
      if h in s.handlers && s.handlers[h].Ready? {
        if s.handlers[h].key in s.table { TakenClaimKeepsInv(s, h, now, fault); } else { FreshClaimKeepsInv(s, h, now, fault); }
      }
    case DoSend(h, response) =>
      if h in s.handlers && s.handlers[h].Holding? { SendKeepsInv(s, h, response); }
    case DoComplete(h, now, fault) =>
      if h in s.handlers && s.handlers[h].Sent? { CompleteKeepsInv(s, h, now, fault); }
    case LegacyRecord(key, hash, json, now) => LegacyKeepsInv(s, key, hash, json, now);
    case _ => HandlerListKeepsInv(s, step);
  }

  lemma HandlerListKeepsInv(s: System, step: Step)
    requires Inv(s) && (step.Arrive? || step.Crash?)
    ensures Inv(Next(s, step))
  {
    var s' := Next(s, step);
    assert s'.log == s.log && s'.table == s.table;
    forall e | e in s'.log ensures EventAgrees(s', e) {
      assert EventAgrees(s, e);
    }
    forall k | k in s'.table ensures ResponseProduced(s', k) {
      assert ResponseProduced(s, k);
    }
    forall g | g in s'.handlers ensures HandlerAgrees(s', g) {
      if g in s.handlers {
        assert HandlerAgrees(s, g);
      }
    }
  }

  lemma {:induction false} ReachableInv(steps: seq<Step>)
    ensures Inv(After(steps))
  {
    if steps != [] {
      ReachableInv(steps[..|steps| - 1]);
      NextKeepsInv(After(steps[..|steps| - 1]), steps[|steps| - 1]);
    }
  }

  lemma StepPersists(s: System, step: Step)
    requires Inv(s)
    ensures Persists(s.table, Next(s, step).table)
    ensures s.log <= Next(s, step).log
  {
  }

  // ----- the results -----

  /** In every run of any number of handlers, each key is sent at most once. */
  lemma {:induction false} AtMostOneSendPerKey(steps: seq<Step>, i: nat, j: nat)
    requires i < j < |After(steps).log|
    requires After(steps).log[i].kind == Send && After(steps).log[j].kind == Send
    ensures After(steps).log[i].key != After(steps).log[j].key
  {
    ReachableInv(steps);
  }

  /** Every replay of a key gives one and the same response, for one and the same hash: the one its
      only send brought back, or, for a key recorded through the older interface, that recording. */
  lemma {:induction false} ReplaysAreTheProducedResponse(steps: seq<Step>, replay: Event)
    requires replay in After(steps).log && replay.kind == Replayed
    ensures Event(Send, replay.key, replay.hash, replay.json) in After(steps).log
         || Event(Legacy, replay.key, replay.hash, replay.json) in After(steps).log
    ensures forall other :: other in After(steps).log && other.kind == Replayed && other.key == replay.key ==> other == replay
    ensures forall send :: send in After(steps).log && send.kind == Send && send.key == replay.key ==>
              send == Event(Send, replay.key, replay.hash, replay.json)
  {
    ReachableInv(steps);
    var s := After(steps);
    assert EventAgrees(s, replay) && ResponseProduced(s, replay.key);
    forall other | other in s.log && other.kind == Replayed && other.key == replay.key ensures other == replay {
      assert EventAgrees(s, other);
    }
    forall send | send in s.log && send.kind == Send && send.key == replay.key
      ensures send == Event(Send, replay.key, replay.hash, replay.json)
    {
      SendsOfAKeyAreOne(s, send, Event(Send, replay.key, replay.hash, replay.json));
    }
  }

  lemma SendsOfAKeyAreOne(s: System, a: Event, b: Event)
    requires Inv(s) && a in s.log && a.kind == Send
    requires b.kind == Send && b.key == a.key
    requires b in s.log || Event(Legacy, b.key, b.hash, b.json) in s.log
    ensures a == b
  {
  }

  /** Two callers of one key with different hashes: at most one of them ever gets anything but a
      conflict. */
  lemma {:induction false} OtherHashesOnlySeeConflict(steps: seq<Step>, a: Event, b: Event)
    requires a in After(steps).log && b in After(steps).log
    requires a.key == b.key && a.hash != b.hash
    ensures a.kind == Refused || b.kind == Refused
  {
    ReachableInv(steps);
    assert EventAgrees(After(steps), a) && EventAgrees(After(steps), b);
  }

  /** Along any continuation of a run the table keeps every key, hash, response and completed row, so
      a reservation or a response is never overwritten, and the log only grows. */
  lemma {:induction false} RunsPersist(steps: seq<Step>, more: seq<Step>)
    ensures Persists(After(steps).table, After(steps + more).table)
    ensures After(steps).log <= After(steps + more).log
    decreases |more|
  {
    if more == [] {
      assert steps + more == steps;
    } else {
      var init, last := more[..|more| - 1], more[|more| - 1];
      assert (steps + more)[..|steps + more| - 1] == steps + init;
      RunsPersist(steps, init);
      ReachableInv(steps + init);
      StepPersists(After(steps + init), last);
    }
  }

  /** Once a handler has stored its response, every later caller with its key and hash is answered
      with that response, whatever other handlers do in between. */
  lemma {:induction false} StoredSendIsReplayedForever(steps: seq<Step>, h: nat, now: int, more: seq<Step>, later: int)
    requires h in After(steps).handlers && After(steps).handlers[h].Sent?
    ensures var at := After(steps).handlers[h];
            var s := After(steps + [DoComplete(h, now, NoFault)] + more);
            && Claim(s.table, at.key, at.hash, later) == (s.table, Stored(at.json))
            && Get(s.table, at.key, at.hash) == Found(at.json)
            && ClaimKeyedSend(Atomic, s.table, at.key, at.hash, later).1
               == if at.json == "" then Malformed else Replay(at.json)
  {
    var at := After(steps).handlers[h];
    var done := steps + [DoComplete(h, now, NoFault)];
    ReachableInv(steps);
    assert HandlerAgrees(After(steps), h);
    assert done[..|done| - 1] == steps;
    RunsPersist(done, more);
    assert After(done).table[at.key].responseJson == Some(at.json);
  }

  /** So it is with a response recorded through the older interface, under a key that was free. */
  lemma {:induction false} LegacyRecordIsReplayedForever(steps: seq<Step>, key: string, hash: string, json: string, now: int,
                                                         more: seq<Step>, later: int)
    requires key !in After(steps).table
    ensures var s := After(steps + [LegacyRecord(key, hash, json, now)] + more);
            Claim(s.table, key, hash, later) == (s.table, Stored(json)) && Get(s.table, key, hash) == Found(json)
  {
    var done := steps + [LegacyRecord(key, hash, json, now)];
    assert done[..|done| - 1] == steps;
    RunsPersist(done, more);
    assert After(done).table[key].responseJson == Some(json);
  }

  /** And before any response is stored a lookup finds nothing, and under another hash only the conflict. */
  lemma {:induction false} LookupsExactly(steps: seq<Step>, key: string, hash: string, json: string)
    ensures var t := After(steps).table;
            && (Get(t, key, hash) == Found(json) <==> key in t && t[key].requestHash == hash && t[key].responseJson == Some(json))
            && (Get(t, key, hash) == LookupConflict <==> key in t && t[key].requestHash != hash)
  {
    ReachableInv(steps);
    hide After;
  }

  /** A handler that has sent never finds its reservation stale, whatever happens between the two
      statements of its completion. */
  lemma {:induction false} CompletionIsNeverStale(steps: seq<Step>, more: seq<Step>, h: nat, now: int)
    requires h in After(steps).handlers && After(steps).handlers[h].Sent?
    requires h in After(steps + more).handlers && After(steps + more).handlers[h] == After(steps).handlers[h]
    ensures var at, t, later := After(steps).handlers[h], After(steps).table, After(steps + more).table;
            CompleteAround(t, later, at.key, at.hash, at.json, now) == Complete(later, at.key, at.hash, at.json, now)
            && Complete(later, at.key, at.hash, at.json, now).1.Ok?
  {
    hide After;
    ReachableInv(steps);
    ReachableInv(steps + more);
    assert HandlerAgrees(After(steps), h) && HandlerAgrees(After(steps + more), h);
  }

  // ----- who gets to send -----

  /** This step makes `key` taken: a claim that reaches its write, or a recording through the older
      interface. */
  predicate Takes(s: System, step: Step, key: string) {
    || (step.LegacyRecord? && step.key == key)
    || (step.DoClaim? && step.fault != BeforeWrite && step.h in s.handlers && s.handlers[step.h].Ready? && s.handlers[step.h].key == key)
  }

  predicate TakenBefore(steps: seq<Step>, n: nat, key: string)
    requires n <= |steps|
  {
    exists i :: 0 <= i < n && Takes(After(steps[..i]), steps[i], key)
  }

  lemma NextKeys(s: System, step: Step, key: string)
    ensures key in Next(s, step).table <==> key in s.table || Takes(s, step, key)
  {
  }

  /** The table holds a key exactly when some step has taken it. */
  lemma {:induction false} TakenKeys(steps: seq<Step>, n: nat, key: string)
    requires n <= |steps|
    ensures key in After(steps[..n]).table <==> TakenBefore(steps, n, key)
    decreases n
  {
    if n > 0 {
      assert steps[..n][..n - 1] == steps[..n - 1];
      TakenKeys(steps, n - 1, key);
      hide Next, Takes;
      NextKeys(After(steps[..n - 1]), steps[n - 1], key);
    }
  }

  predicate MaySend(s: System, h: nat, key: string, hash: string) {
    h in s.handlers && s.handlers[h] == Holding(key, hash)
  }

  /** The n-th step is a claim that leaves handler `h` with the right to send. */
  predicate GrantedAt(steps: seq<Step>, n: nat, h: nat, key: string, hash: string) {
    && n < |steps| && steps[n].DoClaim? && steps[n].h == h
    && h in After(steps[..n]).handlers && After(steps[..n]).handlers[h] == Ready(key, hash)
    && MaySend(After(steps[..n + 1]), h, key, hash)
  }

  lemma {:induction false} AfterOne(steps: seq<Step>, n: nat)
    requires n < |steps|
    ensures After(steps[..n + 1]) == Next(After(steps[..n]), steps[n])
  {
    assert steps[..n + 1][..n] == steps[..n];
  }

  /** A claim by a waiting handler is granted exactly when it reports no fault and nobody has taken the
      key before; so of all claims of a key at most one is granted. */
  lemma {:induction false} FirstClaimIsGranted(steps: seq<Step>, n: nat, h: nat, key: string, hash: string)
    requires n < |steps| && steps[n].DoClaim? && steps[n].h == h
    requires h in After(steps[..n]).handlers && After(steps[..n]).handlers[h] == Ready(key, hash)
    ensures GrantedAt(steps, n, h, key, hash) <==> steps[n].fault == NoFault && !TakenBefore(steps, n, key)
    ensures GrantedAt(steps, n, h, key, hash) ==>
              forall m: nat, g: nat, other: string :: GrantedAt(steps, m, g, key, other) ==> m == n
  {
    ClaimIsGranted(steps, n, h, key, hash);
    if GrantedAt(steps, n, h, key, hash) {
      forall m: nat, g: nat, other: string | GrantedAt(steps, m, g, key, other) ensures m == n {
        ClaimIsGranted(steps, m, g, key, other);
        assert Takes(After(steps[..n]), steps[n], key) && Takes(After(steps[..m]), steps[m], key);
      }
    }
  }

  lemma {:induction false} ClaimIsGranted(steps: seq<Step>, n: nat, h: nat, key: string, hash: string)
    requires n < |steps| && steps[n].DoClaim? && steps[n].h == h
    requires h in After(steps[..n]).handlers && After(steps[..n]).handlers[h] == Ready(key, hash)
    ensures GrantedAt(steps, n, h, key, hash) <==> steps[n].fault == NoFault && !TakenBefore(steps, n, key)
  {
    TakenKeys(steps, n, key);
    AfterOne(steps, n);
    hide TakenBefore, After;
  }

  /** The step takes the right to send away from `h`, by using it or by ending the handler. */
  predicate Spends(step: Step, h: nat) {
    (step.DoSend? && step.h == h) || (step.Crash? && step.h == h)
  }

  /** At the n-th step handler `h` still has the right it was granted. */
  predicate GrantStands(steps: seq<Step>, n: nat, h: nat, key: string, hash: string)
    requires n <= |steps|
  {
    exists i :: 0 <= i < n && GrantedAt(steps, i, h, key, hash) && forall m :: i < m < n ==> !Spends(steps[m], h)
  }

  lemma HoldingStep(s: System, step: Step, h: nat, key: string, hash: string)
    ensures MaySend(Next(s, step), h, key, hash) && !(step.DoClaim? && step.h == h && h in s.handlers && s.handlers[h] == Ready(key, hash))
            <==> MaySend(s, h, key, hash) && !Spends(step, h)
  {
  }

  lemma {:induction false} GrantStandsOn(steps: seq<Step>, n: nat, h: nat, key: string, hash: string)
    requires n < |steps|
    ensures GrantStands(steps, n + 1, h, key, hash) <==>
            GrantedAt(steps, n, h, key, hash) || (GrantStands(steps, n, h, key, hash) && !Spends(steps[n], h))
  {
    hide GrantedAt, Spends;
  }

  lemma {:induction false} RightIsGranted(steps: seq<Step>, n: nat, h: nat, key: string, hash: string)
    requires n <= |steps|
    ensures MaySend(After(steps[..n]), h, key, hash) <==> GrantStands(steps, n, h, key, hash)
    decreases n
  {
    if n > 0 {
      RightIsGranted(steps, n - 1, h, key, hash);
      AfterOne(steps, n - 1);
      HoldingStep(After(steps[..n - 1]), steps[n - 1], h, key, hash);
      GrantStandsOn(steps, n - 1, h, key, hash);
      hide After, Next, Spends, GrantStands;
    }
  }

  /** Handler `h` sends at the j-th step, having been granted its claim before. */
  predicate SendsAt(steps: seq<Step>, j: nat, h: nat, key: string, hash: string, response: Option<string>) {
    j < |steps| && steps[j] == DoSend(h, response) && GrantStands(steps, j, h, key, hash)
  }

  /** And a send goes out exactly when a handler that was granted its claim sends before anything ends it. */
  lemma {:induction false} SentExactly(steps: seq<Step>, n: nat, key: string, hash: string, response: Option<string>)
    requires n <= |steps|
    ensures Event(Send, key, hash, response) in After(steps[..n]).log <==>
            exists j: nat, h: nat :: j < n && SendsAt(steps, j, h, key, hash, response)
    decreases n
  {
    if n > 0 {
      SentExactly(steps, n - 1, key, hash, response);
      hide After, SendsAt;
      SentByStep(steps, n - 1, key, hash, response);
    }
  }

  lemma {:induction false} SentByStep(steps: seq<Step>, n: nat, key: string, hash: string, response: Option<string>)
    requires n < |steps|
    ensures Event(Send, key, hash, response) in After(steps[..n + 1]).log <==>
            Event(Send, key, hash, response) in After(steps[..n]).log || exists h: nat :: SendsAt(steps, n, h, key, hash, response)
  {
    AfterOne(steps, n);
    SendStep(After(steps[..n]), steps[n], key, hash, response);
    if steps[n].DoSend? {
      RightIsGranted(steps, n, steps[n].h, key, hash);
      assert SendsAt(steps, n, steps[n].h, key, hash, response)
        <==> steps[n].response == response && MaySend(After(steps[..n]), steps[n].h, key, hash);
    }
    hide After, Next, GrantStands;
  }

  lemma SendStep(s: System, step: Step, key: string, hash: string, response: Option<string>)
    ensures Event(Send, key, hash, response) in Next(s, step).log <==>
            Event(Send, key, hash, response) in s.log ||
            (step.DoSend? && step.response == response && MaySend(s, step.h, key, hash))
  {
  }

  /** A claim of a taken key is answered from its row: one event, unless the stored response is empty. */
  lemma {:induction false} TakenClaimIsAnswered(steps: seq<Step>, h: nat, now: int)
    requires h in After(steps).handlers && After(steps).handlers[h].Ready?
    requires After(steps).handlers[h].key in After(steps).table
    ensures var s, s' := After(steps), Next(After(steps), DoClaim(h, now, NoFault));
            var key, hash := s.handlers[h].key, s.handlers[h].hash;
            var row := s.table[key];
            s'.log == s.log +
              if row.requestHash != hash then [Event(Refused, key, hash, None)]
              else if row.responseJson.None? then [Event(Pended, key, hash, None)]
              else if row.responseJson.value == "" then []
              else [Event(Replayed, key, hash, row.responseJson)]
  {
    ReachableInv(steps);
    assert HandlerAgrees(After(steps), h);
    hide After, HandlerAgrees, EventAgrees, ResponseProduced;
  }

  /** The handlers are exactly those that have arrived. */
  lemma {:induction false} HandlersHaveArrived(steps: seq<Step>, h: nat)
    ensures h in After(steps).handlers <==> exists i :: 0 <= i < |steps| && steps[i].Arrive? && steps[i].h == h
  {
    if steps != [] {
      var init, last := steps[..|steps| - 1], steps[|steps| - 1];
      HandlersHaveArrived(init, h);
      assert steps == init + [last];
      if i :| 0 <= i < |init| && init[i].Arrive? && init[i].h == h {
        assert steps[i].Arrive? && steps[i].h == h;
      }
      if i :| 0 <= i < |steps| && steps[i].Arrive? && steps[i].h == h {
        assert i < |init| ==> init[i].Arrive? && init[i].h == h;
      }
    }
  }

  /** A handler left alone with a free key claims it, sends, and has its response stored. */
  lemma {:induction false} HandlerLeftAlone(steps: seq<Step>, h: nat, key: string, hash: string, json: string, claimed: int, completed: int)
    requires h !in After(steps).handlers && key !in After(steps).table
    ensures var s := After(steps);
            var s' := After(steps + [Arrive(h, key, hash)] + [DoClaim(h, claimed, NoFault)] + [DoSend(h, Some(json))]
                            + [DoComplete(h, completed, NoFault)]);
            && s'.log == s.log + [Event(Send, key, hash, Some(json))]
            && s'.table == s.table[key := Request(hash, Some(json), completed, Some(claimed), Completed)]
  {
    var a := steps + [Arrive(h, key, hash)];
    var b := a + [DoClaim(h, claimed, NoFault)];
    var c := b + [DoSend(h, Some(json))];
    AfterSnoc(steps, Arrive(h, key, hash));
    AfterSnoc(a, DoClaim(h, claimed, NoFault));
    AfterSnoc(b, DoSend(h, Some(json)));
    AfterSnoc(c, DoComplete(h, completed, NoFault));
    hide After;
  }

  lemma {:induction false} AfterSnoc(steps: seq<Step>, step: Step)
    ensures After(steps + [step]) == Next(After(steps), step)
  {
    assert (steps + [step])[..|steps|] == steps;
  }
}
