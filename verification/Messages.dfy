/** The status rule of the message projection, and the linear order it hides. */
module StatusOrder {

  /** A status is any text; the five the program ranks are told apart from all others. */
  datatype Status = Pending | Sent | Delivered | Read | Failed | Unranked(text: string)

  function Rank(status: Status): int {
    match status
    case Pending => 0
    case Sent => 1
    case Delivered => 2
    case Read => 3
    case Failed => 1
    case Unranked(_) => 0
  }

  predicate FailedMayReplace(current: Status) {
    Rank(current) <= 1
  }

  predicate ShouldAdvance(next: Status, current: Status) {
    if next == Failed then FailedMayReplace(current) else Rank(next) > Rank(current)
  }

  /** {pending, unranked} < sent < failed < delivered < read. */
  function Level(status: Status): int {
    match status
    case Pending => 0
    case Sent => 1
    case Delivered => 3
    case Read => 4
    case Failed => 2
    case Unranked(_) => 0
  }

  /** The rank-plus-gate rule is strict increase in one linear order, except failed over failed. */
  lemma AdvanceIsStrictIncrease(next: Status, current: Status)
    ensures ShouldAdvance(next, current)
       <==> Level(next) > Level(current) || (next == Failed && current == Failed)
  {
  }

  lemma LevelInjective(a: Status, b: Status)
    requires Level(a) == Level(b) > 0
    ensures a == b
  {
  }
}

/** The message table and the status-event table, and the two store operations that write them.
    A table is a map from primary key to row; the event table keeps insertion order. */
module Messages {
  import opened Wrappers
  import opened StatusOrder

  datatype Backend = Sqlite | Postgres

  datatype Direction = Inbound | Outbound

  datatype Message = Message(rowId: string, waMessageId: string, direction: Direction,
                             fromPhone: Option<string>, toPhone: Option<string>, kind: string,
                             status: Status, graphMessageId: Option<string>,
                             createdAt: int, updatedAt: int)

  datatype StatusEvent = StatusEvent(waMessageId: string, status: Status, timestamp: int)

  datatype Tables = Tables(messages: map<string, Message>, events: seq<StatusEvent>)

  // ----- single statements -----

  /** The unique index on (direction, wa_message_id). */
  predicate Projected(messages: map<string, Message>, m: Message) {
    exists r :: r in messages && messages[r].direction == m.direction && messages[r].waMessageId == m.waMessageId
  }

  /** INSERT OR IGNORE: a clash on the primary key or on the unique index keeps the first row. */
  function Insert(messages: map<string, Message>, m: Message): map<string, Message> {
    if m.rowId in messages || Projected(messages, m) then messages else messages[m.rowId := m]
  }

  /** A row that keeps `m` from being inserted: it has its primary key, or its direction and message id. */
  predicate StandsFor(ms: map<string, Message>, r: string, m: Message) {
    r in ms && (r == m.rowId || (ms[r].direction == m.direction && ms[r].waMessageId == m.waMessageId))
  }

  /** So INSERT OR IGNORE adds the row exactly when no row stands for it. */
  lemma InsertExactly(ms: map<string, Message>, m: Message)
    ensures Insert(ms, m).Keys == ms.Keys + (if exists r :: StandsFor(ms, r, m) then {} else {m.rowId})
  {
    assert m.rowId in ms <==> StandsFor(ms, m.rowId, m);
    if Projected(ms, m) {
      var r :| r in ms && ms[r].direction == m.direction && ms[r].waMessageId == m.waMessageId;
      assert StandsFor(ms, r, m);
    }
  }

  /** UPDATE ... WHERE wa_message_id = ?: every row of the id, whatever its direction. */
  function SetStatus(messages: map<string, Message>, wa: string, status: Status, at: int): (out: map<string, Message>)
    ensures out.Keys == messages.Keys
  {
    map r | r in messages ::
      if messages[r].waMessageId == wa then messages[r].(status := status, updatedAt := at) else messages[r]
  }

  function InsertEvent(events: seq<StatusEvent>, e: StatusEvent): seq<StatusEvent> {
    if e in events then events else events + [e]
  }

  function EventsOf(events: seq<StatusEvent>, wa: string): (out: seq<StatusEvent>)
    ensures forall e :: e in out <==> e in events && e.waMessageId == wa
  {
    if events == [] then []
    else (if events[0].waMessageId == wa then [events[0]] else []) + EventsOf(events[1..], wa)
  }

  function InsertByTimestamp(sorted: seq<StatusEvent>, e: StatusEvent): (out: seq<StatusEvent>)
    ensures multiset(out) == multiset(sorted) + multiset{e}
  {
    if sorted == [] || e.timestamp < sorted[0].timestamp then [e] + sorted
    else
      assert sorted == [sorted[0]] + sorted[1..];
      [sorted[0]] + InsertByTimestamp(sorted[1..], e)
  }

  /** ORDER BY timestamp ASC; rows with one timestamp stay in insertion order. */
  function OrderByTimestamp(events: seq<StatusEvent>): (out: seq<StatusEvent>)
    ensures multiset(out) == multiset(events)
  {
    if events == [] then []
    else
      var last := |events| - 1;
      assert events == events[..last] + [events[last]];
      InsertByTimestamp(OrderByTimestamp(events[..last]), events[last])
  }

  predicate Chronological(events: seq<StatusEvent>) {
    forall i, j :: 0 <= i < j < |events| ==> events[i].timestamp <= events[j].timestamp
  }

  lemma {:induction false} InsertByTimestampSorts(sorted: seq<StatusEvent>, e: StatusEvent)
    requires Chronological(sorted)
    ensures Chronological(InsertByTimestamp(sorted, e))
  {
    if sorted == [] || e.timestamp < sorted[0].timestamp {
      assert InsertByTimestamp(sorted, e) == [e] + sorted;
    } else {
      InsertByTimestampSorts(sorted[1..], e);
      var rest := InsertByTimestamp(sorted[1..], e);
      forall x | x in rest ensures sorted[0].timestamp <= x.timestamp {
        assert x in multiset(sorted[1..]) + multiset{e};
      }
      assert InsertByTimestamp(sorted, e) == [sorted[0]] + rest;
    }
  }

  lemma {:induction false} OrderByTimestampSorts(events: seq<StatusEvent>)
    ensures Chronological(OrderByTimestamp(events))
  {
    if events != [] {
      var last := |events| - 1;
      OrderByTimestampSorts(events[..last]);
      InsertByTimestampSorts(OrderByTimestamp(events[..last]), events[last]);
    }
  }

  lemma {:induction false} OrderByTimestampSameElements(events: seq<StatusEvent>)
    ensures forall e :: e in OrderByTimestamp(events) <==> e in events
  {
    forall e ensures e in OrderByTimestamp(events) <==> e in events {
      assert e in OrderByTimestamp(events) <==> e in multiset(OrderByTimestamp(events));
      assert e in events <==> e in multiset(events);
    }
  }

  // ----- the reconciliation fold -----

  datatype Standing = Standing(status: Status, updatedAt: int)

  function Later(a: int, b: int): int {
    if a > b then a else b
  }

  /** What the reconciliation loop holds after running over `events` from `s`. */
  function Best(events: seq<StatusEvent>, s: Standing): Standing {
    if events == [] then s
    else if ShouldAdvance(events[0].status, s.status) then
      Best(events[1..], Standing(events[0].status, Later(events[0].timestamp, s.updatedAt)))
    else Best(events[1..], s)
  }

  /** Whatever the order of the events, the fold ends in the greatest status, keeping `s` on a tie. */
  lemma {:induction false} BestIsMaximum(events: seq<StatusEvent>, s: Standing)
    ensures var b := Best(events, s);
            && Level(s.status) <= Level(b.status)
            && (forall e :: e in events ==> Level(e.status) <= Level(b.status))
            && (Level(b.status) == Level(s.status) ==> b.status == s.status)
            && s.updatedAt <= b.updatedAt
            && (b != s ==> Level(b.status) > 0)
            && (b == s || exists e :: e in events && e.status == b.status)
  {
    if events != [] {
      AdvanceIsStrictIncrease(events[0].status, s.status);
      var s' := if ShouldAdvance(events[0].status, s.status)
                then Standing(events[0].status, Later(events[0].timestamp, s.updatedAt)) else s;
      BestIsMaximum(events[1..], s');
      assert Best(events, s) == Best(events[1..], s');
      assert forall e :: e in events ==> e == events[0] || e in events[1..];
      if s' != s {
        assert events[0] in events;
      }
    }
  }

  /** The stored event a reconciliation from `s` ends on: one of the greatest status, if that advances
      `s`; the earliest of them, or for `failed`, which replaces itself, the latest. */
  predicate Decides(events: seq<StatusEvent>, wa: string, s: Standing, e: StatusEvent) {
    && e in events && e.waMessageId == wa && ShouldAdvance(e.status, s.status)
    && (forall f :: f in events && f.waMessageId == wa ==> Level(f.status) <= Level(e.status))
    && (forall f :: f in events && f.waMessageId == wa && f.status == e.status ==>
          if e.status == Failed then f.timestamp <= e.timestamp else e.timestamp <= f.timestamp)
  }

  lemma {:induction false} BestStays(events: seq<StatusEvent>, s: Standing)
    requires forall f :: f in events ==> !ShouldAdvance(f.status, s.status)
    ensures Best(events, s) == s
    decreases |events|
  {
    if events != [] {
      assert events[0] in events;
      BestStays(events[1..], s);
    }
  }

  /** Which status and time the fold yields: those of the deciding event, the call's own time being the
      least. */
  lemma {:induction false} BestIsDecided(events: seq<StatusEvent>, wa: string, s: Standing, e: StatusEvent)
    requires Chronological(events) && (forall f :: f in events ==> f.waMessageId == wa) && Decides(events, wa, s, e)
    ensures Best(events, s) == Standing(e.status, Later(e.timestamp, s.updatedAt))
    decreases |events|
  {
    assert e in events;
    hide Chronological, Decides;
    var h, rest := events[0], events[1..];
    var s' := Standing(h.status, Later(h.timestamp, s.updatedAt));
    FirstIsEarliest(events);
    if !ShouldAdvance(h.status, s.status) {
      DecidesRest(events, wa, s, e);
      BestIsDecided(rest, wa, s, e);
    } else if h.status != e.status {
      DecidesAfterLower(events, wa, s, s', e);
      BestIsDecided(rest, wa, s', e);
    } else if f :| f in rest && f.status == h.status == Failed {
      var last := LastFailure(events, wa, s, s', e, f);
      BestIsDecided(rest, wa, s', last);
    } else {
      DecidedByFirst(events, wa, s, e);
      BestStays(rest, s');
    }
  }

  lemma FirstIsEarliest(events: seq<StatusEvent>)
    requires Chronological(events) && events != []
    ensures events[0] in events && Chronological(events[1..])
    ensures forall f :: f in events[1..] ==> f in events && events[0].timestamp <= f.timestamp
    ensures forall f :: f in events ==> f == events[0] || f in events[1..]
  {
  }

  /** An event that does not advance the start does not decide, and its absence changes nothing. */
  lemma DecidesRest(events: seq<StatusEvent>, wa: string, s: Standing, e: StatusEvent)
    requires Decides(events, wa, s, e) && events != [] && !ShouldAdvance(events[0].status, s.status)
    ensures Decides(events[1..], wa, s, e)
  {
  }

  lemma DecidesAfterLower(events: seq<StatusEvent>, wa: string, s: Standing, s': Standing, e: StatusEvent)
    requires Decides(events, wa, s, e) && events != [] && events[0].waMessageId == wa
    requires events[0].status == s'.status != e.status && ShouldAdvance(s'.status, s.status)
    ensures Decides(events[1..], wa, s', e)
  {
    AdvanceIsStrictIncrease(s'.status, s.status);
    AdvanceIsStrictIncrease(e.status, s.status);
    AdvanceIsStrictIncrease(e.status, s'.status);
    assert events[0] in events;
    if Level(e.status) == Level(s'.status) {
      LevelInjective(e.status, s'.status);
    }
  }

  /** A failure followed by failures: the last of these decides what is left, at the same time. */
  lemma LastFailure(events: seq<StatusEvent>, wa: string, s: Standing, s': Standing, e: StatusEvent, f: StatusEvent)
    returns (last: StatusEvent)
    requires Decides(events, wa, s, e) && events != [] && e.status == Failed == s'.status && events[0].status == Failed
    requires f in events[1..] && f.status == Failed
    requires (forall g :: g in events ==> g.waMessageId == wa) && Chronological(events)
    ensures Decides(events[1..], wa, s', last) && last.timestamp == e.timestamp && last.status == e.status
  {
    FirstIsEarliest(events);
    last := if e in events[1..] then e else f;
  }

  lemma DecidedByFirst(events: seq<StatusEvent>, wa: string, s: Standing, e: StatusEvent)
    requires Decides(events, wa, s, e) && events != [] && events[0].status == e.status
    requires (forall g :: g in events ==> g.waMessageId == wa) && Chronological(events)
    requires e.status == Failed ==> forall f :: f in events[1..] ==> f.status != Failed
    ensures events[0].timestamp == e.timestamp
    ensures forall f :: f in events[1..] ==> !ShouldAdvance(f.status, e.status)
  {
    FirstIsEarliest(events);
    forall f | f in events[1..] ensures !ShouldAdvance(f.status, e.status) {
      AdvanceIsStrictIncrease(f.status, e.status);
    }
  }

  /** There is a deciding event whenever some event advances the start. */
  lemma SomeEventDecides(events: seq<StatusEvent>, wa: string, s: Standing, e: StatusEvent) returns (d: StatusEvent)
    requires e in events && e.waMessageId == wa && ShouldAdvance(e.status, s.status)
    ensures Decides(events, wa, s, d)
  {
    d := GreatestEvent(events, wa, e);
    AdvanceIsStrictIncrease(e.status, s.status);
    AdvanceIsStrictIncrease(d.status, s.status);
    LevelsTellStatuses(events, d);
  }

  /** Of the events of a message: one of the greatest level, and of those of its status the one whose
      time counts. */
  lemma {:induction false} GreatestEvent(events: seq<StatusEvent>, wa: string, e: StatusEvent) returns (d: StatusEvent)
    requires e in events && e.waMessageId == wa
    ensures d in events && d.waMessageId == wa && Level(e.status) <= Level(d.status)
    ensures forall f :: f in events && f.waMessageId == wa ==> !Supersedes(f, d)
    decreases |events|
  {
    var h, rest := events[0], events[1..];
    assert events == [h] + rest;
    if x :| x in rest && x.waMessageId == wa {
      d := GreatestEvent(rest, wa, if e in rest then e else x);
      if h.waMessageId == wa && Supersedes(h, d) {
        d := h;
      }
    } else {
      d := h;
    }
  }

  predicate Supersedes(f: StatusEvent, d: StatusEvent) {
    || Level(f.status) > Level(d.status)
    || (f.status == d.status && if d.status == Failed then f.timestamp > d.timestamp else f.timestamp < d.timestamp)
  }

  lemma LevelsTellStatuses(events: seq<StatusEvent>, d: StatusEvent)
    requires Level(d.status) > 0
    ensures forall f :: f in events && Level(f.status) == Level(d.status) ==> f.status == d.status
  {
    forall f | f in events && Level(f.status) == Level(d.status) ensures f.status == d.status {
      LevelInjective(f.status, d.status);
    }
  }

  // ----- the store operations -----

  function StoredBest(t: Tables, wa: string, s: Standing): Standing {
    Best(OrderByTimestamp(EventsOf(t.events, wa)), s)
  }

  /** Reconciliation starts from the status and time of the CALL, not of the stored row. */
  function Reconcile(t: Tables, wa: string, s: Standing): Tables {
    var b := StoredBest(t, wa, s);
    if b != s then t.(messages := SetStatus(t.messages, wa, b.status, b.updatedAt)) else t
  }

  lemma ReconcileFrame(t: Tables, wa: string, s: Standing)
    ensures var t' := Reconcile(t, wa, s);
            && t'.events == t.events
            && t'.messages.Keys == t.messages.Keys
            && forall r :: r in t.messages ==> SameIdentity(t'.messages[r], t.messages[r])
  {
  }

  /** The columns no operation ever rewrites. */
  predicate SameIdentity(a: Message, b: Message) {
    a == b.(status := a.status, updatedAt := a.updatedAt)
  }

  function StandingOf(m: Message): Standing {
    Standing(m.status, m.updatedAt)
  }

  /** recordMessage. Postgres returns early on a (direction, wa_message_id) clash that is not also
      a row_id clash; SQLite reconciles in every case. */
  function Record(backend: Backend, t: Tables, m: Message): Tables {
    if backend.Postgres? && m.rowId !in t.messages && Projected(t.messages, m) then t
    else Reconcile(t.(messages := Insert(t.messages, m)), m.waMessageId, StandingOf(m))
  }

  predicate Matches(messages: map<string, Message>, r: string, wa: string) {
    r in messages && messages[r].waMessageId == wa
  }

  /** `pick` is a row the single-row SELECT by wa_message_id may return; any string if there is none. */
  predicate MayPick(messages: map<string, Message>, wa: string, pick: string) {
    Matches(messages, pick, wa) || forall r :: r in messages ==> messages[r].waMessageId != wa
  }

  /** appendMessageStatus: store the event, then advance by the row the SELECT returned. */
  function Append(t: Tables, e: StatusEvent, pick: string): Tables {
    var t' := t.(events := InsertEvent(t.events, e));
    if Matches(t.messages, pick, e.waMessageId) && ShouldAdvance(e.status, t.messages[pick].status) then
      t'.(messages := SetStatus(t.messages, e.waMessageId, e.status,
                                Later(e.timestamp, t.messages[pick].updatedAt)))
    else t'
  }

  lemma RecordFrame(backend: Backend, t: Tables, m: Message)
    ensures var t' := Record(backend, t, m);
            && t'.events == t.events
            && t'.messages.Keys == Insert(t.messages, m).Keys
            && (forall r :: r in t.messages ==> SameIdentity(t'.messages[r], t.messages[r]))
            && (m.rowId !in t.messages && m.rowId in t'.messages ==> SameIdentity(t'.messages[m.rowId], m))
  {
    var inserted := t.(messages := Insert(t.messages, m));
    assert forall r :: r in t.messages ==> r in inserted.messages && inserted.messages[r] == t.messages[r];
    ReconcileFrame(inserted, m.waMessageId, StandingOf(m));
  }

  /** A recording adds its row exactly when no row stands for it, and removes none; the identity columns
      are those recorded first. */
  ghost predicate AddsRow(ms: map<string, Message>, ms': map<string, Message>, m: Message) {
    && ms'.Keys == ms.Keys + (if exists r :: StandsFor(ms, r, m) then {} else {m.rowId})
    && (forall r :: r in ms ==> SameIdentity(ms'[r], ms[r]))
    && (m.rowId !in ms && m.rowId in ms' ==> SameIdentity(ms'[m.rowId], m))
  }

  /** So does one that stops after its INSERT. */
  lemma RecordingAddsRow(backend: Backend, t: Tables, m: Message)
    ensures AddsRow(t.messages, Record(backend, t, m).messages, m)
    ensures AddsRow(t.messages, Insert(t.messages, m), m)
  {
    InsertAddsRow(t.messages, m);
    RecordFrame(backend, t, m);
    hide Record, Insert, SameIdentity, StandsFor, Projected;
  }

  lemma InsertAddsRow(ms: map<string, Message>, m: Message)
    ensures AddsRow(ms, Insert(ms, m), m)
  {
    InsertExactly(ms, m);
    hide StandsFor, Projected;
  }

  lemma RecordReconciles(t: Tables, m: Message)
    ensures Record(Sqlite, t, m) == Reconcile(t.(messages := Insert(t.messages, m)), m.waMessageId, StandingOf(m))
  {
  }
}
