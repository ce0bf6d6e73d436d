/** startOutboxWorker: the timer-driven loop that runs one batch after another until stopped. */
module OutboxLoop {
  import opened Wrappers

  /** RunStarted and RunEnded bracket a batch; StopResolved is the first stop() settling. */
  datatype Event = RunStarted | RunEnded | Reported | StopCalled | StopResolved

  /** `stopWaiting` is a pending stopResolve callback. `live` are the timers the scheduler holds. */
  datatype State = State(stopped: bool, inFlight: bool, timerHandle: Option<nat>, stopWaiting: bool,
                         live: set<nat>, handles: nat, log: seq<Event>)

  /** Fire runs the timer callback of a handle; Finish ends the batch under way. */
  datatype Step = Fire(handle: nat) | Finish | Stop

  function Arm(s: State): State {
    if s.stopped then s
    else s.(timerHandle := Some(s.handles), live := s.live + {s.handles}, handles := s.handles + 1)
  }

  const IDLE := State(false, false, None, false, {}, 0, [])

  function Next(s: State, step: Step): State {
    match step
    case Fire(h) =>
      var fired := s.(live := s.live - {h}, timerHandle := None);
      if s.stopped || s.inFlight then fired else fired.(inFlight := true, log := s.log + [RunStarted])
    case Finish =>
      if !s.inFlight then s
      else
        var ended := s.(inFlight := false, log := s.log + (if s.stopped then [RunEnded] else [RunEnded, Reported]));
        if !s.stopped then Arm(ended)
        else if s.stopWaiting then ended.(stopWaiting := false, log := ended.log + [StopResolved]) else ended
    case Stop =>
      if s.stopped then s
      else
        var cleared := s.(stopped := true, timerHandle := None, log := s.log + [StopCalled],
                          live := if s.timerHandle.Some? then s.live - {s.timerHandle.value} else s.live);
        if s.inFlight then cleared.(stopWaiting := true) else cleared.(log := cleared.log + [StopResolved])
  }

  function After(steps: seq<Step>): State {
    if steps == [] then Arm(IDLE) else Next(After(steps[..|steps| - 1]), steps[|steps| - 1])
  }

  // ----- whatever the scheduler does -----

  function Started(log: seq<Event>): nat {
    if log == [] then 0 else Started(log[..|log| - 1]) + (if log[|log| - 1] == RunStarted then 1 else 0)
  }

  function Ended(log: seq<Event>): nat {
    if log == [] then 0 else Ended(log[..|log| - 1]) + (if log[|log| - 1] == RunEnded then 1 else 0)
  }

  /** What the log must look like for `e` to follow it. */
  predicate MayFollow(log: seq<Event>, e: Event) {
    match e
    case RunStarted => Started(log) == Ended(log) && StopCalled !in log
    case RunEnded => Started(log) == Ended(log) + 1 && StopResolved !in log
    case Reported => StopCalled !in log && StopResolved !in log
    case StopCalled => StopCalled !in log && StopResolved !in log
    case StopResolved => Started(log) == Ended(log) && StopCalled in log && StopResolved !in log
  }

  /** At any point of the log at most one batch is under way, and none starts after stop() or ends
      after stop() has resolved. */
  predicate GoodLog(log: seq<Event>) {
    log == [] || (GoodLog(log[..|log| - 1]) && MayFollow(log[..|log| - 1], log[|log| - 1]))
  }

  predicate Safe(s: State) {
    && GoodLog(s.log)
    && Started(s.log) == Ended(s.log) + (if s.inFlight then 1 else 0)
    && (s.stopped <==> StopCalled in s.log)
    && (StopResolved in s.log <==> s.stopped && !s.inFlight)
    && (s.stopWaiting <==> s.stopped && s.inFlight)
    && (!s.stopped && !s.inFlight ==> s.live != {})
    && (s.timerHandle.Some? ==> s.timerHandle.value in s.live)
    && (forall h :: h in s.live ==> h < s.handles)
  }

  lemma {:induction false} LogAppend(log: seq<Event>, e: Event)
    ensures Started(log + [e]) == Started(log) + (if e == RunStarted then 1 else 0)
    ensures Ended(log + [e]) == Ended(log) + (if e == RunEnded then 1 else 0)
    ensures GoodLog(log + [e]) <==> (GoodLog(log) && MayFollow(log, e))
  {
  }

  lemma FinishKeepsSafe(s: State)
    requires Safe(s) && s.inFlight
    ensures Safe(Next(s, Finish))
  {
    hide GoodLog, Started, Ended;
    LogAppend(s.log, RunEnded);
    var log := s.log + [RunEnded];
    LogAppend(log, Reported);
    LogAppend(log, StopResolved);
    assert s.log + [RunEnded, Reported] == log + [Reported];
  }

  lemma NextKeepsSafe(s: State, step: Step)
    requires Safe(s)
    ensures Safe(Next(s, step))
  {
    hide GoodLog, Started, Ended;
    match step
    case Fire(h) => LogAppend(s.log, RunStarted);
    case Finish => if s.inFlight { FinishKeepsSafe(s); }
    case Stop =>
      LogAppend(s.log, StopCalled);
      LogAppend(s.log + [StopCalled], StopResolved);
  }

  /** Whichever timers the scheduler fires, in whatever order and even repeatedly: batches never
      overlap, none starts after stop(), the first stop() resolves exactly when nothing is in flight,
      and while not stopped there is always a batch under way or a timer to start one. */
  lemma {:induction false} EveryScheduleIsSafe(steps: seq<Step>)
    ensures Safe(After(steps))
  {
    if steps != [] {
      EveryScheduleIsSafe(steps[..|steps| - 1]);
      NextKeepsSafe(After(steps[..|steps| - 1]), steps[|steps| - 1]);
    }
  }

  /** When stop() resolves the loop is over: a resolution is the last thing that ever happens. */
  lemma {:induction false} NothingAfterStopResolves(log: seq<Event>, i: nat)
    requires GoodLog(log) && i < |log| && log[i] == StopResolved
    ensures i == |log| - 1
    ensures StopCalled in log && Started(log) == Ended(log)
    decreases |log|
  {
  }

  /** What each step does, told by the log alone: a firing starts a batch unless one is under way or stop() was
      called; the end of a batch is reported before stop(), and afterwards resolves it; the first stop()
      resolves at once if no batch is under way. */
  lemma {:induction false} StepsByLog(steps: seq<Step>, step: Step)
    ensures var log, idle := After(steps).log, Started(After(steps).log) == Ended(After(steps).log);
            After(steps + [step]).log == log +
              match step
              case Fire(_) => if idle && StopCalled !in log then [RunStarted] else []
              case Finish =>
                if idle then [] else if StopCalled in log then [RunEnded, StopResolved] else [RunEnded, Reported]
              case Stop =>
                if StopCalled in log then [] else if idle then [StopCalled, StopResolved] else [StopCalled]
  {
    EveryScheduleIsSafe(steps);
    assert (steps + [step])[..|steps|] == steps;
    hide After, GoodLog, Started, Ended;
  }

  /** A batch is reported right after its end, exactly when stop() has not been called by then. */
  predicate ReportsFollow(log: seq<Event>) {
    && (forall i :: 0 <= i < |log| && log[i] == RunEnded && StopCalled !in log[..i] ==> i + 1 < |log| && log[i + 1] == Reported)
    && (forall i :: 0 <= i < |log| && log[i] == Reported ==> i > 0 && log[i - 1] == RunEnded)
  }

  /** What one step may add: a reported end; after stop() anything but a report; or neither. */
  predicate Addition(log: seq<Event>, more: seq<Event>) {
    more == [RunEnded, Reported] || (Reported !in more && (StopCalled in log || RunEnded !in more))
  }

  lemma ReportsAppend(log: seq<Event>, more: seq<Event>)
    requires ReportsFollow(log) && Addition(log, more)
    ensures ReportsFollow(log + more)
  {
    var all := log + more;
    forall i | 0 <= i < |all| && all[i] == RunEnded && StopCalled !in all[..i] ensures i + 1 < |all| && all[i + 1] == Reported {
      if i < |log| {
        assert all[..i] == log[..i];
      } else {
        assert all[..i] == log + more[..i - |log|];
        assert more[i - |log|] == RunEnded;
      }
    }
  }

  /** Every batch that ends before stop() is called is reported, at once, and no other. */
  lemma {:induction false} BatchesAreReported(steps: seq<Step>)
    ensures ReportsFollow(After(steps).log)
  {
    if steps != [] {
      var s, step := After(steps[..|steps| - 1]), steps[|steps| - 1];
      BatchesAreReported(steps[..|steps| - 1]);
      EveryScheduleIsSafe(steps[..|steps| - 1]);
      hide GoodLog, ReportsFollow, Addition;
      var more := Next(s, step).log[|s.log|..];
      StepAppends(s, step);
      ReportsAppend(s.log, more);
    }
  }

  lemma StepAppends(s: State, step: Step)
    requires s.stopped <==> StopCalled in s.log
    ensures var log := Next(s, step).log;
            |s.log| <= |log| && log == s.log + log[|s.log|..] && Addition(s.log, log[|s.log|..])
  {
  }

  // ----- a scheduler that keeps its word -----

  /** Every firing is for a timer the scheduler holds. */
  predicate Honest(steps: seq<Step>) {
    steps == [] ||
    (Honest(steps[..|steps| - 1]) &&
     (steps[|steps| - 1].Fire? ==> steps[|steps| - 1].handle in After(steps[..|steps| - 1]).live))
  }

  /** With one firing per armed timer, the loop while not stopped has exactly one of a timer armed and
      a batch in flight, the scheduler holds exactly that timer, and after stop() it holds none. */
  lemma {:induction false} ArmedOrInFlight(steps: seq<Step>)
    requires Honest(steps)
    ensures var s := After(steps);
            && (!s.stopped ==> (s.timerHandle.Some? <==> !s.inFlight))
            && s.live == (if s.timerHandle.Some? then {s.timerHandle.value} else {})
            && (s.stopped ==> s.live == {})
  {
    if steps != [] {
      ArmedOrInFlight(steps[..|steps| - 1]);
    }
  }

  // ----- the worker object -----

  class OutboxWorkerLoop {
    var stopped: bool
    var inFlight: bool
    var timerHandle: Option<nat>
    var stopWaiting: bool
    var live: set<nat>
    var handles: nat
    ghost var log: seq<Event>

    ghost function Now(): State
      reads this
    {
      State(stopped, inFlight, timerHandle, stopWaiting, live, handles, log)
    }

    /** Starting the worker arms the first timer. */
    constructor ()
      ensures Now() == After([])
    {
      stopped, inFlight, timerHandle, stopWaiting, live, handles, log := false, false, Some(0), false, {0}, 1, [];
    }

    method ArmTimer()
      modifies this
      ensures Now() == Arm(old(Now()))
    {
      if !stopped {
        timerHandle, live, handles := Some(handles), live + {handles}, handles + 1;
      }
    }

    /** The timer callback up to the point where the batch is under way. */
    method FireTimer(handle: nat) returns (starts: bool)
      modifies this
      ensures Now() == Next(old(Now()), Fire(handle))
      ensures starts <==> !old(stopped) && !old(inFlight)
    {
      live, timerHandle := live - {handle}, None;
      starts := !stopped && !inFlight;
      if starts {
        inFlight := true;
        log := log + [RunStarted];
      }
    }

    /** The rest of the callback, once the batch has ended, normally or not. */
    method FinishRun()
      requires inFlight
      modifies this
      ensures Now() == Next(old(Now()), Finish)
    {
      log := log + (if stopped then [RunEnded] else [RunEnded, Reported]);
      inFlight := false;
      if stopped {
        if stopWaiting {
          stopWaiting := false;
          log := log + [StopResolved];
        }
      } else {
        ArmTimer();
      }
    }

    /** stop(): true when it resolves at once, false when it waits for the batch under way. */
    method StopLoop() returns (resolvesNow: bool)
      modifies this
      ensures Now() == Next(old(Now()), Stop)
      ensures resolvesNow <==> old(stopped) || !inFlight
    {
      if stopped {
        return true;
      }
      stopped := true;
      log := log + [StopCalled];
      if timerHandle.Some? {
        live := live - {timerHandle.value};
        timerHandle := None;
      }
      resolvesNow := !inFlight;
      if inFlight {
        stopWaiting := true;
      } else {
        log := log + [StopResolved];
      }
    }
  }
}
