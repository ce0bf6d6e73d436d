/** The order the Postgres store's promise chain has to give: a queue of calls, one running at a time, and
    a close() that first shuts the door, then joins the queue itself. */
module PostgresQueue {
  import opened Wrappers

  /** A call that passed the door, numbered in call order. */
  datatype Operation = Operation(number: nat, isClose: bool)

  datatype Event =
    | Began(number: nat)
    | Query(number: nat)
    | ClientEnd(number: nat)
    | Finished(number: nat, ok: bool)

  /** `chain` holds the operations not yet settled, oldest first; `running` says whether the first of
      them has started. `firstClose` is the number of the first close(). */
  datatype State = State(closing: bool, closed: bool, chain: seq<Operation>, running: bool,
                         calls: nat, firstClose: Option<nat>, log: seq<Event>)

  const OPEN := State(false, false, [], false, 0, None, [])

  datatype Step = Call | Close | Begin | IssueQuery | Settle(ok: bool)

  /** #assertOpen and #withLock run in one synchronous stretch of the calling method. */
  predicate Admitted(s: State) {
    !s.closing && !s.closed
  }

  function Enqueue(s: State, isClose: bool): State {
    s.(chain := s.chain + [Operation(s.calls, isClose)], calls := s.calls + 1)
  }

  function Next(s: State, step: Step): State {
    match step
    case Call => if Admitted(s) then Enqueue(s, false) else s
    case Close =>
      Enqueue(s.(closing := true, firstClose := if s.firstClose.Some? then s.firstClose else Some(s.calls)), true)
    case Begin =>
      if s.chain == [] || s.running then s
      else
        var head := s.chain[0];
        var begun := s.(running := true, log := s.log + [Began(head.number)]);
        if head.isClose && !s.closed then begun.(closed := true, log := begun.log + [ClientEnd(head.number)]) else begun
    case IssueQuery =>
      if s.chain != [] && s.running && !s.chain[0].isClose then s.(log := s.log + [Query(s.chain[0].number)]) else s
    case Settle(ok) =>
      if s.chain != [] && s.running
      then s.(chain := s.chain[1..], running := false, log := s.log + [Finished(s.chain[0].number, ok)])
      else s
  }

  function After(steps: seq<Step>): State {
    if steps == [] then OPEN else Next(After(steps[..|steps| - 1]), steps[|steps| - 1])
  }

  // ----- the invariant -----

  /** The number of the operation whose turn it is, or of the next call. */
  function Turn(s: State): int {
    s.calls - |s.chain|
  }

  predicate InOrder(log: seq<Event>) {
    forall i, j :: 0 <= i < j < |log| ==> log[i].number <= log[j].number
  }

  predicate IsFinished(log: seq<Event>, n: int) {
    exists e :: e in log && e.Finished? && e.number == n
  }

  ghost predicate ChainNumbered(s: State) {
    && 0 <= Turn(s)
    && (forall i :: 0 <= i < |s.chain| ==> s.chain[i].number == Turn(s) + i)
    && (s.running ==> s.chain != [])
  }

  ghost predicate LogSound(s: State) {
    && InOrder(s.log)
    && (forall e :: e in s.log ==> if s.running then e.number <= Turn(s) else e.number < Turn(s))
    && (forall n :: 0 <= n < Turn(s) ==> IsFinished(s.log, n))
    && (forall e :: e in s.log && e.Finished? ==> e.number < Turn(s))
  }

  ghost predicate DoorSound(s: State) {
    && (s.closing <==> s.firstClose.Some?)
    && (s.firstClose.Some? ==> s.firstClose.value < s.calls)
    && (forall i :: 0 <= i < |s.chain| ==>
          (s.chain[i].isClose <==> s.firstClose.Some? && s.firstClose.value <= s.chain[i].number))
    && (forall e :: e in s.log && e.Query? ==> s.firstClose.Some? ==> e.number < s.firstClose.value)
    && (forall e :: e in s.log && e.ClientEnd? ==> s.firstClose == Some(e.number))
    && (s.closed <==> exists e :: e in s.log && e.ClientEnd?)
    && (s.firstClose.Some? && !s.closed ==>
          (Turn(s) <= s.firstClose.value && (s.running ==> Turn(s) < s.firstClose.value)))
    && (forall i, j :: 0 <= i < j < |s.log| && s.log[i].ClientEnd? ==> !s.log[j].ClientEnd?)
  }

  ghost predicate Inv(s: State) {
    ChainNumbered(s) && LogSound(s) && DoorSound(s)
  }

  /** Each step adds events of the operation whose turn it is, if any. */
  lemma NextKeepsOrder(s: State, step: Step)
    requires Inv(s)
    ensures var s' := Next(s, step);
            && ChainNumbered(s') && InOrder(s'.log)
            && (forall e :: e in s'.log ==> if s'.running then e.number <= Turn(s') else e.number < Turn(s'))
  {
    hide IsFinished, DoorSound;
  }

  lemma NextKeepsLogSound(s: State, step: Step)
    requires Inv(s)
    ensures ChainNumbered(Next(s, step)) && LogSound(Next(s, step))
  {
    NextKeepsOrder(s, step);
    var s' := Next(s, step);
    assert forall e :: e in s.log ==> e in s'.log;
    hide IsFinished, InOrder, DoorSound;
    forall n | 0 <= n < Turn(s') ensures IsFinished(s'.log, n) {
      FinishedStays(s.log, s'.log, n);
      if n >= Turn(s) {
        LastFinished(s'.log, n);
      }
    }
  }

  lemma FinishedStays(log: seq<Event>, log': seq<Event>, n: int)
    requires forall e :: e in log ==> e in log'
    ensures IsFinished(log, n) ==> IsFinished(log', n)
  {
  }

  lemma LastFinished(log: seq<Event>, n: int)
    requires log != [] && log[|log| - 1].Finished? && log[|log| - 1].number == n
    ensures IsFinished(log, n)
  {
  }

  lemma NextKeepsDoorSound(s: State, step: Step)
    requires Inv(s)
    ensures DoorSound(Next(s, step))
  {
    var s' := Next(s, step);
    assert forall e :: e in s.log ==> e in s'.log;
    if step.Begin? && s.chain != [] && !s.running && s.chain[0].isClose && !s.closed {
      assert s'.log[|s'.log| - 1].ClientEnd?;
    }
  }

  lemma {:induction false} ReachableInv(steps: seq<Step>)
    ensures Inv(After(steps))
  {
    if steps != [] {
      var before := After(steps[..|steps| - 1]);
      ReachableInv(steps[..|steps| - 1]);
      NextKeepsLogSound(before, steps[|steps| - 1]);
      NextKeepsDoorSound(before, steps[|steps| - 1]);
    }
  }

  // ----- the results -----

  /** In every schedule the events follow the call order, so the queries of two operations never
      interleave: between two events of one operation there are only its own. */
  lemma {:induction false} OperationsNeverInterleave(steps: seq<Step>, i: nat, j: nat, k: nat)
    requires i < j < k < |After(steps).log|
    ensures After(steps).log[i].number <= After(steps).log[j].number
    ensures After(steps).log[i].number == After(steps).log[k].number ==>
              After(steps).log[j].number == After(steps).log[i].number
  {
    ReachableInv(steps);
  }

  /** Once close() has been called, nothing called later issues a query; the connection ends at most
      once, at the first close(), after every operation called before it has finished, and no
      query follows. */
  lemma {:induction false} CloseIsClean(steps: seq<Step>, i: nat)
    requires i < |After(steps).log| && After(steps).log[i].ClientEnd?
    ensures var s := After(steps);
            && s.firstClose == Some(s.log[i].number)
            && (forall e :: e in s.log && e.Query? ==> e.number < s.log[i].number)
            && (forall j :: 0 <= j < |s.log| && j != i ==> !s.log[j].ClientEnd?)
            && (forall j :: i < j < |s.log| ==> !s.log[j].Query?)
            && (forall n :: 0 <= n < s.log[i].number ==> IsFinished(s.log[..i], n))
  {
    ReachableInv(steps);
    var s := After(steps);
    assert s.log[i] in s.log;
    forall j | i < j < |s.log| ensures !s.log[j].Query? {
      assert s.log[j] in s.log;
    }
    forall j | 0 <= j < |s.log| && j != i ensures !s.log[j].ClientEnd? {
    }
    forall n | 0 <= n < s.log[i].number ensures IsFinished(s.log[..i], n) {
      assert IsFinished(s.log, n);
      var e :| e in s.log && e.Finished? && e.number == n;
      var j :| 0 <= j < |s.log| && s.log[j] == e;
      assert s.log[..i][j] == e;
    }
  }

  /** Once a store that was closed has nothing queued left, its connection has ended. */
  lemma {:induction false} ClosedStoreEnds(steps: seq<Step>)
    requires After(steps).firstClose.Some? && After(steps).chain == []
    ensures exists e :: e in After(steps).log && e.ClientEnd? && Some(e.number) == After(steps).firstClose
  {
    ReachableInv(steps);
    var s := After(steps);
    assert s.closed;
    var e :| e in s.log && e.ClientEnd?;
  }
}
