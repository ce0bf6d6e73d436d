/** runOutboxWorkerOnce as the loop it is, against the store, with other callers at work whenever it
    waits. */
module OutboxBatch {
  import opened Wrappers
  import opened Outbox
  import opened OutboxRuns
  import opened OutboxWorker
  import opened SqliteStore

  /** What happens while the worker deals with one item: the steps of other callers while its handler
      runs, whether the handler resolves, how the success mark fails, the steps of other callers before
      the failure mark, and how that fails. */
  datatype Turn = Turn(during: seq<Step>, resolves: bool, successFault: Fault, between: seq<Step>, failureFault: Fault)

  predicate Acceptable(step: Step) {
    step.DoClaim? ==> 1 <= step.limit <= 100
  }

  /** The store lets through all of the other callers' calls. */
  predicate LetThrough(turn: Turn) {
    (forall s :: s in turn.during ==> Acceptable(s)) && (forall s :: s in turn.between ==> Acceptable(s))
  }

  function Others(r: Run, steps: seq<Step>): (r': Run)
    requires WellKeyed(r.table)
    ensures WellKeyed(r'.table)
    decreases |steps|
  {
    if steps == [] then r else Others(Next(r, steps[0]), steps[1..])
  }

  predicate AtItem(w: Worker) {
    w.Busy? && w.at < |w.batch| && w.phase == Handling
  }

  /** One turn of the loop: the worker's own steps, with the others' in between. */
  function Play(r: Run, w: Worker, turn: Turn): (result: (Run, Worker))
    requires WellKeyed(r.table) && AtItem(w)
    ensures WellKeyed(result.0.table)
  {
    var r1 := Others(r, turn.during);
    var w1 := HandlerSettles(w, turn.resolves);
    var (r2, w2) := if turn.resolves then Mark(r1, w1, turn.successFault) else (r1, w1);
    if w2.Busy? && w2.phase == Caught then Mark(Others(r2, turn.between), w2, turn.failureFault) else (r2, w2)
  }

  /** A turn ends the batch or brings the worker to the next item, one mark the richer. */
  lemma TurnGoesOn(r: Run, w: Worker, turn: Turn)
    requires WellKeyed(r.table) && AtItem(w)
    ensures var w' := Play(r, w, turn).1;
            && (w'.Busy? || w'.Returned? || w'.Aborted?)
            && (w'.Busy? ==> AtItem(w') && w'.at == w.at + 1 && w'.batch == w.batch
                             && w'.now == w.now && w'.retryDelayMs == w.retryDelayMs
                             && w'.succeeded + w'.failed == w.succeeded + w.failed + 1)
            && (w'.Returned? ==> w.at + 1 == |w.batch| == w'.processed
                                 && w'.succeeded + w'.failed == w.succeeded + w.failed + 1)
  {
    hide Next, Others, Fenced;
  }

  function PlayOut(r: Run, w: Worker, turns: nat -> Turn): (Run, Worker)
    requires WellKeyed(r.table) && (w.Busy? ==> AtItem(w))
    decreases if w.Busy? then |w.batch| - w.at else 0
  {
    if !w.Busy? then (r, w)
    else
      TurnGoesOn(r, w, turns(w.at));
      var (r', w') := Play(r, w, turns(w.at));
      PlayOut(r', w', turns)
  }

  /** However the turns go, a batch that returns has marked every item it claimed exactly once. */
  lemma {:induction false} ReturnsAccountForAll(r: Run, w: Worker, turns: nat -> Turn)
    requires WellKeyed(r.table) && (w.Busy? ==> AtItem(w) && w.at == w.succeeded + w.failed) && !w.Returned?
    ensures var w' := PlayOut(r, w, turns).1;
            w'.Returned? ==> w.Busy? && w'.processed == |w.batch| == w'.succeeded + w'.failed
    decreases if w.Busy? then |w.batch| - w.at else 0
  {
    hide Play;
    if w.Busy? {
      TurnGoesOn(r, w, turns(w.at));
      var (r', w') := Play(r, w, turns(w.at));
      if w'.Busy? {
        ReturnsAccountForAll(r', w', turns);
      }
    }
  }

  // ----- what a batch leaves in the log -----

  /** The row is there, and its lease has not gone back. */
  predicate StillThere(r: Run, item: Item) {
    item.id in r.table && item.leaseId <= r.table[item.id].leaseId
  }

  lemma StepConserves(r: Run, step: Step, item: Item)
    requires OutboxRuns.Inv(r) && StillThere(r, item)
    ensures var r' := Next(r, step);
            && OutboxRuns.Inv(r') && StillThere(r', item) && r.log <= r'.log
            && (!Fenced(r.table, item.id, item.leaseId) ==> !Fenced(r'.table, item.id, item.leaseId))
  {
    hide GoodLog, RowMatches, Next, Fenced;
    NextKeepsInv(r, step);
    StepConservesRows(r, step);
    if !Fenced(r.table, item.id, item.leaseId) {
      StaleStaysStale(r, step, item.id, item.leaseId);
    }
  }

  lemma {:induction false} OthersConserve(r: Run, steps: seq<Step>, item: Item)
    requires OutboxRuns.Inv(r) && StillThere(r, item)
    ensures var r' := Others(r, steps);
            && OutboxRuns.Inv(r') && StillThere(r', item) && r.log <= r'.log
            && (!Fenced(r.table, item.id, item.leaseId) ==> !Fenced(r'.table, item.id, item.leaseId))
    decreases |steps|
  {
    hide GoodLog, RowMatches, Next, Fenced, StillThere;
    if steps != [] {
      StepConserves(r, steps[0], item);
      OthersConserve(Next(r, steps[0]), steps[1..], item);
    }
  }

  /** Whether the handler resolved and its success mark met no fault. */
  predicate GoesWell(turn: Turn) {
    turn.resolves && turn.successFault == NoFault
  }

  /** The mark an item gets in a batch that goes on after it. */
  function MarkOf(item: Item, now: int, retryDelayMs: int, turn: Turn): Event {
    if GoesWell(turn) then Done(item.id, item.leaseId, now)
    else Failed(item.id, item.leaseId, now + retryDelayMs, now)
  }

  lemma MarkConserves(r: Run, w: Worker, fault: Fault, item: Item)
    requires OutboxRuns.Inv(r) && StillThere(r, item)
    ensures var r' := Mark(r, w, fault).0;
            && OutboxRuns.Inv(r') && StillThere(r', item) && r.log <= r'.log
            && (!Fenced(r.table, item.id, item.leaseId) ==> !Fenced(r'.table, item.id, item.leaseId))
  {
    MarkIsOneStep(r, w, fault);
    hide GoodLog, RowMatches, Next, Fenced, StillThere, Mark, MarkStep;
    forall step {
      StepConserves(r, step, item);
    }
  }

  /** A success mark is in the log if it was accepted; otherwise it lands in the catch block, and unless it
      failed before its write the lease is lost. */
  lemma SuccessMark(r: Run, w: Worker, fault: Fault)
    requires WellKeyed(r.table) && w.Busy? && w.at < |w.batch| && w.phase == Resolved
    ensures var item := w.batch[w.at];
            var (r', w') := Mark(r, w, fault);
            if Fenced(r.table, item.id, item.leaseId) && fault == NoFault then
              && Done(item.id, item.leaseId, w.now) in r'.log
              && (w'.Busy? || w'.Returned?) && w'.succeeded == w.succeeded + 1 && (w'.Busy? ==> w'.phase == Handling)
            else w' == w.(phase := Caught) && (fault != BeforeWrite ==> !Fenced(r'.table, item.id, item.leaseId))
  {
  }

  /** A failure mark is in the log if it was accepted; otherwise the batch is aborted. */
  lemma FailureMark(r: Run, w: Worker, fault: Fault)
    requires WellKeyed(r.table) && w.Busy? && w.at < |w.batch| && w.phase == Caught
    ensures var item := w.batch[w.at];
            var (r', w') := Mark(r, w, fault);
            w' == Aborted ||
            (Fenced(r.table, item.id, item.leaseId) && (w'.Busy? || w'.Returned?) && w'.succeeded == w.succeeded
             && Failed(item.id, item.leaseId, w.now + w.retryDelayMs, w.now) in r'.log)
  {
  }

  /** A turn that does not abort the batch has marked its item as its handler went. */
  lemma TurnMarks(r: Run, w: Worker, turn: Turn)
    requires OutboxRuns.Inv(r) && AtItem(w) && StillThere(r, w.batch[w.at])
    ensures var (r', w') := Play(r, w, turn);
            !w'.Aborted? ==>
              && MarkOf(w.batch[w.at], w.now, w.retryDelayMs, turn) in r'.log
              && (w'.Busy? || w'.Returned?) && w'.succeeded == w.succeeded + (if GoesWell(turn) then 1 else 0)
  {
    hide GoodLog, RowMatches, Fenced, StillThere, Mark, Others;
    var item := w.batch[w.at];
    var r1, w1 := Others(r, turn.during), HandlerSettles(w, turn.resolves);
    OthersConserve(r, turn.during, item);
    var r2, w2 := r1, w1;
    if turn.resolves {
      SuccessMark(r1, w1, turn.successFault);
      MarkConserves(r1, w1, turn.successFault, item);
      r2, w2 := Mark(r1, w1, turn.successFault).0, Mark(r1, w1, turn.successFault).1;
    }
    if w2.Busy? && w2.phase == Caught {
      OthersConserve(r2, turn.between, item);
      FailureMark(Others(r2, turn.between), w2, turn.failureFault);
    }
  }

  function TurnsGoneWell(turns: nat -> Turn, first: nat, end: nat): (n: nat)
    requires first <= end
    ensures n <= end - first
    decreases end - first
  {
    if first == end then 0
    else (if GoesWell(turns(first)) then 1 else 0) + TurnsGoneWell(turns, first + 1, end)
  }

  /** In a batch that returns, exactly the items whose handlers resolved and whose success marks met no
      fault are marked succeeded, every other one failed with its retry time, and the report counts them. */
  lemma {:induction false} ReturnedBatchMarks(r: Run, w: Worker, turns: nat -> Turn)
    requires OutboxRuns.Inv(r) && (w.Busy? ==> AtItem(w) && forall i :: 0 <= i < |w.batch| ==> StillThere(r, w.batch[i])) && !w.Returned?
    ensures var (r', w') := PlayOut(r, w, turns);
            w.Busy? && w'.Returned? ==>
              && r.log <= r'.log
              && (forall i :: w.at <= i < |w.batch| ==> MarkOf(w.batch[i], w.now, w.retryDelayMs, turns(i)) in r'.log)
              && w'.succeeded == w.succeeded + TurnsGoneWell(turns, w.at, |w.batch|)
    decreases if w.Busy? then |w.batch| - w.at else 0
  {
    hide Play, GoodLog, RowMatches, StillThere, MarkOf;
    if w.Busy? {
      TurnGoesOn(r, w, turns(w.at));
      TurnMarks(r, w, turns(w.at));
      var (r', w') := Play(r, w, turns(w.at));
      TurnConserves(r, w, turns(w.at));
      if w'.Busy? {
        ReturnedBatchMarks(r', w', turns);
      }
    }
  }

  lemma TurnConservesOne(r: Run, w: Worker, turn: Turn, item: Item)
    requires OutboxRuns.Inv(r) && AtItem(w) && StillThere(r, item)
    ensures var r' := Play(r, w, turn).0; OutboxRuns.Inv(r') && r.log <= r'.log && StillThere(r', item)
  {
    hide GoodLog, RowMatches, StillThere, Mark, Others, Fenced;
    var r1, w1 := Others(r, turn.during), HandlerSettles(w, turn.resolves);
    OthersConserve(r, turn.during, item);
    MarkConserves(r1, w1, turn.successFault, item);
    var (r2, w2) := if turn.resolves then Mark(r1, w1, turn.successFault) else (r1, w1);
    OthersConserve(r2, turn.between, item);
    MarkConserves(Others(r2, turn.between), w2, turn.failureFault, item);
  }

  lemma TurnConserves(r: Run, w: Worker, turn: Turn)
    requires OutboxRuns.Inv(r) && AtItem(w) && forall i :: 0 <= i < |w.batch| ==> StillThere(r, w.batch[i])
    ensures var r' := Play(r, w, turn).0;
            OutboxRuns.Inv(r') && r.log <= r'.log && forall i :: 0 <= i < |w.batch| ==> StillThere(r', w.batch[i])
  {
    hide GoodLog, RowMatches, StillThere, Play;
    TurnConservesOne(r, w, turn, w.batch[w.at]);
    forall i | 0 <= i < |w.batch| ensures StillThere(Play(r, w, turn).0, w.batch[i]) {
      TurnConservesOne(r, w, turn, w.batch[i]);
    }
  }

  /** A turn completes exactly when its mark goes through: the success mark, with the item still out under its
      lease; or, if the handler failed or the success mark failed before its write, the failure mark. */
  predicate Completes(r: Run, w: Worker, turn: Turn)
    requires WellKeyed(r.table) && AtItem(w)
  {
    var item := w.batch[w.at];
    if GoesWell(turn) then Out(Others(r, turn.during).log, item.id, item.leaseId)
    else
      && (turn.resolves ==> turn.successFault == BeforeWrite)
      && Out(Others(Others(r, turn.during), turn.between).log, item.id, item.leaseId)
      && turn.failureFault == NoFault && 0 <= w.retryDelayMs <= MAX_RETRY_DELAY_MS
  }

  lemma MarkGoesThrough(r: Run, w: Worker, fault: Fault)
    requires OutboxRuns.Inv(r) && w.Busy? && w.at < |w.batch| && w.phase != Handling
    ensures var item := w.batch[w.at];
            var (r', w') := Mark(r, w, fault);
            && (w.phase == Resolved ==> (w' == w.(phase := Caught) <==> !(Out(r.log, item.id, item.leaseId) && fault == NoFault)))
            && (w.phase == Resolved ==> !w'.Aborted?)
            && (w.phase == Resolved && fault == BeforeWrite ==> r' == r)
            && (w.phase == Caught ==>
                 (!w'.Aborted? <==> Out(r.log, item.id, item.leaseId) && fault == NoFault && 0 <= w.retryDelayMs <= MAX_RETRY_DELAY_MS))
  {
    FencedByLog(r, w.batch[w.at].id, w.batch[w.at].leaseId);
    hide GoodLog, RowMatches, Next, Fenced, Out;
  }

  lemma TurnCompletesExactly(r: Run, w: Worker, turn: Turn)
    requires OutboxRuns.Inv(r) && AtItem(w) && StillThere(r, w.batch[w.at])
    ensures Play(r, w, turn).1.Aborted? <==> !Completes(r, w, turn)
  {
    hide GoodLog, RowMatches, Fenced, StillThere, Mark, Others, Out;
    var item := w.batch[w.at];
    var r1, w1 := Others(r, turn.during), HandlerSettles(w, turn.resolves);
    OthersConserve(r, turn.during, item);
    FencedByLog(r1, item.id, item.leaseId);
    var r2, w2 := r1, w1;
    if turn.resolves {
      SuccessMark(r1, w1, turn.successFault);
      MarkGoesThrough(r1, w1, turn.successFault);
      MarkConserves(r1, w1, turn.successFault, item);
      r2, w2 := Mark(r1, w1, turn.successFault).0, Mark(r1, w1, turn.successFault).1;
    }
    if w2.Busy? && w2.phase == Caught {
      OthersConserve(r2, turn.between, item);
      OthersConserve(r1, turn.between, item);
      FencedByLog(r2, item.id, item.leaseId);
      FencedByLog(Others(r2, turn.between), item.id, item.leaseId);
      FencedByLog(Others(r1, turn.between), item.id, item.leaseId);
      MarkGoesThrough(Others(r2, turn.between), w2, turn.failureFault);
    }
  }

  /** A turn nobody interferes with is one of the runs of any number of workers: the handler settles, and the
      marks follow. */
  lemma TurnIsARun(s: System, w: nat, turn: Turn) returns (actions: seq<Action>)
    requires WellKeyed(s.run.table) && w in s.workers && AtItem(s.workers[w]) && turn.during == [] && turn.between == []
    ensures var (r', w') := Play(s.run, s.workers[w], turn);
            var s' := Continue(s, actions);
            s'.run == r' && s'.workers == s.workers[w := w']
  {
    hide Next, Fenced, Mark;
    NoOthers(s.run);
    var s1 := Act(s, Settles(w, turn.resolves));
    actions := [Settles(w, turn.resolves)];
    ContinueOnce(s, actions[0]);
    var s2 := s1;
    if turn.resolves {
      s2 := Act(s1, Marks(w, turn.successFault));
      ContinueSnoc(s, actions, Marks(w, turn.successFault));
      actions := actions + [Marks(w, turn.successFault)];
    }
    NoOthers(s2.run);
    if s2.workers[w].Busy? && s2.workers[w].phase == Caught {
      ContinueSnoc(s, actions, Marks(w, turn.failureFault));
      actions := actions + [Marks(w, turn.failureFault)];
    }
    hide Continue;
  }

  lemma {:induction false} NoOthers(r: Run)
    requires WellKeyed(r.table)
    ensures Others(r, []) == r
  {
  }

  lemma {:induction false} ContinueOnce(s: System, a: Action)
    requires WellKeyed(s.run.table)
    ensures Continue(s, [a]) == Act(s, a)
  {
    assert [a][1..] == [];
  }

  lemma {:induction false} ContinueSnoc(s: System, actions: seq<Action>, a: Action)
    requires WellKeyed(s.run.table)
    ensures Continue(s, actions + [a]) == Act(Continue(s, actions), a)
    decreases |actions|
  {
    hide Act;
    if actions == [] {
      assert [] + [a] == [a] && [a][1..] == [];
    } else {
      assert (actions + [a])[1..] == actions[1..] + [a];
      ContinueSnoc(Act(s, actions[0]), actions[1..], a);
    }
  }

  // ----- a batch left alone -----

  /** Nobody else is at work, and the mark the handler's outcome calls for meets no fault. */
  predicate Quiet(turn: Turn) {
    turn.during == [] && turn.between == [] && if turn.resolves then turn.successFault == NoFault else turn.failureFault == NoFault
  }

  /** The items from this one on are out under the batch's leases. */
  predicate RestIsOut(r: Run, w: Worker)
    requires w.Busy?
  {
    && (forall i, j :: 0 <= i < j < |w.batch| ==> w.batch[i].id != w.batch[j].id)
    && (forall i :: w.at <= i < |w.batch| ==> Out(r.log, w.batch[i].id, w.batch[i].leaseId))
  }

  lemma QuietTurn(r: Run, w: Worker, turn: Turn)
    requires OutboxRuns.Inv(r) && AtItem(w) && Quiet(turn) && 0 <= w.retryDelayMs <= MAX_RETRY_DELAY_MS
    requires Out(r.log, w.batch[w.at].id, w.batch[w.at].leaseId)
    ensures var (r', w') := Play(r, w, turn);
            r'.log == r.log + [MarkOf(w.batch[w.at], w.now, w.retryDelayMs, turn)] && !w'.Aborted?
  {
    FencedByLog(r, w.batch[w.at].id, w.batch[w.at].leaseId);
    assert Others(r, []) == r;
    hide GoodLog, RowMatches, Out, Others;
  }

  lemma OutsideStaysOut(log: seq<Event>, e: Event, id: string, leaseId: nat)
    requires e.id != id && Out(log, id, leaseId)
    ensures Out(log + [e], id, leaseId)
  {
    LogOfOthers(log, e, id);
  }

  /** Left alone, a batch returns, and its report counts what the handlers did. */
  lemma {:induction false} QuietBatchReturns(r: Run, w: Worker, turns: nat -> Turn)
    requires OutboxRuns.Inv(r) && AtItem(w) && RestIsOut(r, w) && w.at == w.succeeded + w.failed
    requires forall i :: w.at <= i < |w.batch| ==> Quiet(turns(i)) && StillThere(r, w.batch[i])
    requires 0 <= w.retryDelayMs <= MAX_RETRY_DELAY_MS
    ensures PlayOut(r, w, turns).1 == Returned(|w.batch|, w.succeeded + TurnsGoneWell(turns, w.at, |w.batch|),
                                               |w.batch| - w.succeeded - TurnsGoneWell(turns, w.at, |w.batch|))
    decreases |w.batch| - w.at
  {
    hide GoodLog, RowMatches, Out, StillThere, Play, MarkOf, Quiet;
    var item, turn := w.batch[w.at], turns(w.at);
    TurnGoesOn(r, w, turn);
    QuietTurn(r, w, turn);
    TurnMarks(r, w, turn);
    var (r', w') := Play(r, w, turn);
    if w'.Busy? {
      forall i | w.at < i < |w.batch| ensures Out(r'.log, w.batch[i].id, w.batch[i].leaseId) && StillThere(r', w.batch[i]) {
        MarkIsAbout(item, w.now, w.retryDelayMs, turn);
        OutsideStaysOut(r.log, MarkOf(item, w.now, w.retryDelayMs, turn), w.batch[i].id, w.batch[i].leaseId);
        TurnConservesOne(r, w, turn, w.batch[i]);
      }
      TurnConservesOne(r, w, turn, item);
      QuietBatchReturns(r', w', turns);
    }
  }

  lemma MarkIsAbout(item: Item, now: int, retryDelayMs: int, turn: Turn)
    ensures MarkOf(item, now, retryDelayMs, turn).id == item.id
  {
  }

  datatype Report = Report(processed: nat, succeeded: nat, failed: nat)

  function WorkerOf(r: Option<Report>): Worker {
    match r
    case Some(report) => Returned(report.processed, report.succeeded, report.failed)
    case None => Aborted
  }

  /** Other callers' calls on the same store. */
  method OtherCallers(store: SqlitePersistenceStore, steps: seq<Step>)
    requires store.Valid() && !store.closed && forall s :: s in steps ==> Acceptable(s)
    modifies store`outbox, store`outboxLog
    ensures store.Valid() && store.OutboxRun() == Others(old(store.OutboxRun()), steps)
  {
    hide Next;
    for i := 0 to |steps|
      invariant store.Valid() && !store.closed
      invariant Others(store.OutboxRun(), steps[i..]) == Others(old(store.OutboxRun()), steps)
    {
      assert steps[i..][1..] == steps[i + 1..];
      assert Acceptable(steps[i]);
      OneCall(store, steps[i]);
    }
  }

  method OneCall(store: SqlitePersistenceStore, step: Step)
    requires store.Valid() && !store.closed && Acceptable(step)
    modifies store`outbox, store`outboxLog
    ensures store.Valid() && store.OutboxRun() == Next(old(store.OutboxRun()), step)
  {
    hide Next;
    match step
    case DoEnqueue(id, payloadHash, createdAt, nextAttemptAt) =>
      var _ := store.EnqueueOutboxItem(id, payloadHash, createdAt, nextAttemptAt, NoFault);
    case DoClaim(now, limit) =>
      var _ := store.ClaimOutboxItems(now, limit, (_: nat) => false);
    case DoFail(id, leaseId, retryAt, updatedAt) =>
      var _ := store.MarkOutboxItemFailed(id, leaseId, retryAt, updatedAt, NoFault);
    case DoSucceed(id, leaseId, updatedAt) =>
      var _ := store.MarkOutboxItemSucceeded(id, leaseId, updatedAt, NoFault);
  }

  datatype TurnOutcome = MarkedSucceeded | MarkedFailed | Threw

  /** Where a worker stands after its turn. */
  function Moved(w: Worker, outcome: TurnOutcome): Worker
    requires AtItem(w)
  {
    match outcome
    case MarkedSucceeded => Settle(w.(at := w.at + 1, succeeded := w.succeeded + 1))
    case MarkedFailed => Settle(w.(at := w.at + 1, failed := w.failed + 1))
    case Threw => Aborted
  }

  /** The body of the loop: try the handler and the success mark, and on any error mark the failure. */
  method RunTurn(store: SqlitePersistenceStore, item: Item, now: int, retryDelayMs: int, turn: Turn, ghost w: Worker)
    returns (outcome: TurnOutcome)
    requires store.Valid() && !store.closed && LetThrough(turn)
    requires AtItem(w) && w.batch[w.at] == item && w.now == now && w.retryDelayMs == retryDelayMs
    modifies store`outbox, store`outboxLog
    ensures store.Valid() && (store.OutboxRun(), Moved(w, outcome)) == Play(old(store.OutboxRun()), w, turn)
  {
    hide Next, Others;
    OtherCallers(store, turn.during);
    if turn.resolves {
      var marked := store.MarkOutboxItemSucceeded(item.id, item.leaseId, now, turn.successFault);
      if marked.Ok? { return MarkedSucceeded; }
    }
    OtherCallers(store, turn.between);
    if !(0 <= retryDelayMs <= MAX_RETRY_DELAY_MS) { return Threw; }
    var marked := store.MarkOutboxItemFailed(item.id, item.leaseId, now + retryDelayMs, now, turn.failureFault);
    outcome := if marked.Ok? then MarkedFailed else Threw;
  }

  /** No report means the batch was aborted by an error from the catch block. */
  method RunOutboxWorkerOnce(store: SqlitePersistenceStore, now: int, limit: nat, retryDelayMs: int, turns: nat -> Turn)
    returns (r: Option<Report>)
    requires store.Valid() && !store.closed && 1 <= limit <= 100 && forall n: nat :: LetThrough(turns(n))
    modifies store`outbox, store`outboxLog
    ensures store.Valid()
    ensures var (r0, w0) := Begin(old(store.OutboxRun()), now, limit, retryDelayMs);
            (store.OutboxRun(), WorkerOf(r)) == PlayOut(r0, w0, turns)
    ensures r.Some? ==> r.value.processed == r.value.succeeded + r.value.failed
                        && r.value.processed == |Claim(old(store.outbox), now, limit).1|
  {
    hide Next, Claim, Play;
    ghost var start := Begin(store.OutboxRun(), now, limit, retryDelayMs);
    ghost var end := PlayOut(start.0, start.1, turns);
    var claimed := store.ClaimOutboxItems(now, limit, (_: nat) => false);
    var batch := claimed.value;
    var succeeded: nat, failed: nat := 0, 0;
    for i := 0 to |batch|
      invariant store.Valid() && !store.closed && succeeded + failed == i
      invariant end == PlayOut(store.OutboxRun(), Settle(Busy(batch, i, Handling, now, retryDelayMs, succeeded, failed)), turns)
    {
      ghost var w := Busy(batch, i, Handling, now, retryDelayMs, succeeded, failed);
      TurnGoesOn(store.OutboxRun(), w, turns(i));
      var outcome := RunTurn(store, batch[i], now, retryDelayMs, turns(i), w);
      match outcome {
        case MarkedSucceeded => succeeded := succeeded + 1;
        case MarkedFailed => failed := failed + 1;
        case Threw => return None;
      }
    }
    r := Some(Report(|batch|, succeeded, failed));
  }
}
