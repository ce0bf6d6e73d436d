/** The Postgres store's promise chain: every call adds three promises to it, each settled by a reaction of
    its own once the promise before it is settled. Reactions fire one at a time, in any order. The chain
    refines the queue of calls. */
module PromiseChain {
  import opened Wrappers
  import Q = PostgresQueue

  /** A typed store error, or a driver's exception. */
  datatype Cause = Typed | Raw

  datatype Promise = Pending | Fulfilled | Rejected(cause: Cause)

  /** Which rejection handlers `#withLock` attaches; a reaction without a handler passes on the state of
      the promise before it. `runsAfterRejection`: the second `fn` of `chain.then(fn, fn)`. `mapsErrors`:
      the error mapping of `run`. `swallows`: the second function of the new `#chain`. */
  datatype Wiring = Wiring(runsAfterRejection: bool, mapsErrors: bool, swallows: bool)

  const WITH_LOCK := Wiring(true, true, true)

  /** One call: `fired` once the reaction on the promise before it has fired, `began` if that started the
      call's body, and the three promises: of the body, of `run`, and the next `#chain`. */
  datatype Call = Call(isClose: bool, fired: bool, began: bool, body: Promise, run: Promise, link: Promise)

  datatype State = State(closing: bool, closed: bool, calls: seq<Call>, firstClose: Option<nat>, log: seq<Q.Event>)

  const OPEN := State(false, false, [], None, [])

  datatype Step =
    | Invoke
    | Close
    | FireBody(n: nat)
    | IssueQuery(n: nat)
    | EndBody(n: nat, result: Promise)
    | FireRun(n: nat)
    | FireLink(n: nat)

  /** The promise `#chain` held when the call was made: at first a fulfilled one. */
  function Before(s: State, n: nat): Promise
    requires n < |s.calls|
  {
    if n == 0 then Fulfilled else s.calls[n - 1].link
  }

  predicate Running(c: Call) {
    c.began && c.body.Pending?
  }

  // ----- what the steps do -----

  predicate Admitted(s: State) {
    !s.closing && !s.closed
  }

  function WithLock(s: State, isClose: bool): State {
    s.(calls := s.calls + [Call(isClose, false, false, Pending, Pending, Pending)])
  }

  function Update(s: State, n: nat, c: Call): State
    requires n < |s.calls|
  {
    s.(calls := s.calls[n := c])
  }

  /** The body starts: that of a close ends the client unless an earlier close has. */
  function BeginBody(s: State, n: nat): State
    requires n < |s.calls|
  {
    var c := s.calls[n];
    var begun := Update(s, n, c.(fired := true, began := true)).(log := s.log + [Q.Began(n)]);
    if c.isClose && !s.closed then begun.(closed := true, log := begun.log + [Q.ClientEnd(n)]) else begun
  }

  function MapError(w: Wiring, p: Promise): Promise {
    if p.Rejected? && w.mapsErrors then Rejected(Typed) else p
  }

  function Swallow(w: Wiring, p: Promise): Promise {
    if p.Rejected? && w.swallows then Fulfilled else p
  }

  predicate Enabled(s: State, step: Step) {
    match step
    case Invoke => Admitted(s)
    case Close => true
    case FireBody(n) => n < |s.calls| && !s.calls[n].fired && !Before(s, n).Pending?
    case IssueQuery(n) => n < |s.calls| && Running(s.calls[n]) && !s.calls[n].isClose
    case EndBody(n, result) => n < |s.calls| && Running(s.calls[n]) && !result.Pending?
    case FireRun(n) => n < |s.calls| && !s.calls[n].body.Pending? && s.calls[n].run.Pending?
    case FireLink(n) => n < |s.calls| && !s.calls[n].run.Pending? && s.calls[n].link.Pending?
  }

  /** A step that is not enabled changes nothing. */
  function Next(w: Wiring, s: State, step: Step): State {
    if !Enabled(s, step) then s
    else
      match step
      case Invoke => WithLock(s, false)
      case Close =>
        WithLock(s.(closing := true, firstClose := if s.firstClose.Some? then s.firstClose else Some(|s.calls|)), true)
      case FireBody(n) =>
        if Before(s, n).Fulfilled? || w.runsAfterRejection then BeginBody(s, n)
        else Update(s, n, s.calls[n].(fired := true, body := Before(s, n)))
      case IssueQuery(n) => s.(log := s.log + [Q.Query(n)])
      case EndBody(n, result) =>
        Update(s, n, s.calls[n].(body := result)).(log := s.log + [Q.Finished(n, result.Fulfilled?)])
      case FireRun(n) => Update(s, n, s.calls[n].(run := MapError(w, s.calls[n].body)))
      case FireLink(n) => Update(s, n, s.calls[n].(link := Swallow(w, s.calls[n].run)))
  }

  function After(w: Wiring, steps: seq<Step>): State {
    if steps == [] then OPEN else Next(w, After(w, steps[..|steps| - 1]), steps[|steps| - 1])
  }

  // ----- the invariant -----

  /** Every body runs, whatever became of the calls before it. */
  predicate Robust(w: Wiring) {
    w.runsAfterRejection || w.swallows
  }

  /** The promises of a call settle in turn, and as their handlers say. */
  predicate CallSound(w: Wiring, c: Call) {
    && (c.began ==> c.fired)
    && (!c.body.Pending? ==> c.fired)
    && (c.fired && !c.began ==> !c.body.Pending?)
    && (!c.run.Pending? ==> c.run == MapError(w, c.body) && !c.body.Pending?)
    && (!c.link.Pending? ==> c.link == Swallow(w, c.run) && !c.run.Pending?)
    && (Robust(w) ==> (c.fired ==> c.began))
  }

  ghost predicate Inv(w: Wiring, s: State) {
    && (forall n :: 0 <= n < |s.calls| ==> CallSound(w, s.calls[n]))
    && (forall i, j :: 0 <= i < j < |s.calls| && s.calls[j].fired ==> !s.calls[i].link.Pending?)
  }

  /** A settled link has every earlier one settled. */
  lemma LinksSettleInOrder(w: Wiring, s: State, n: nat)
    requires Inv(w, s) && n < |s.calls| && !Before(s, n).Pending?
    ensures forall i :: 0 <= i < n ==> !s.calls[i].link.Pending? && !s.calls[i].body.Pending?
  {
    if n > 0 {
      assert CallSound(w, s.calls[n - 1]);
    }
    forall i | 0 <= i < n ensures !s.calls[i].link.Pending? && !s.calls[i].body.Pending? {
      assert CallSound(w, s.calls[i]);
    }
  }

  lemma NextKeepsInv(w: Wiring, s: State, step: Step)
    requires Inv(w, s)
    ensures Inv(w, Next(w, s, step))
  {
    var s' := Next(w, s, step);
    if Enabled(s, step) && step.FireBody? {
      LinksSettleInOrder(w, s, step.n);
      if step.n > 0 {
        assert CallSound(w, s.calls[step.n - 1]);
      }
    }
    forall n | 0 <= n < |s'.calls| ensures CallSound(w, s'.calls[n]) {
      assert n < |s.calls| ==> CallSound(w, s.calls[n]);
    }
  }

  lemma {:induction false} ReachableInv(w: Wiring, steps: seq<Step>)
    ensures Inv(w, After(w, steps))
  {
    if steps != [] {
      ReachableInv(w, steps[..|steps| - 1]);
      NextKeepsInv(w, After(w, steps[..|steps| - 1]), steps[|steps| - 1]);
    }
  }

  // ----- the results on the promises -----

  /** A body starts only when the chain promise before it has settled, and with it every earlier call's
      three promises. */
  lemma {:induction false} BodiesWaitTheirTurn(w: Wiring, steps: seq<Step>, i: nat, n: nat)
    requires i < n < |After(w, steps).calls| && After(w, steps).calls[n].fired
    ensures var c := After(w, steps).calls[i]; !c.body.Pending? && !c.run.Pending? && !c.link.Pending?
  {
    ReachableInv(w, steps);
    assert CallSound(w, After(w, steps).calls[i]);
  }

  /** A caller sees its own call's outcome, a rejection always as a typed error; and whatever it sees, the
      chain goes on fulfilled. */
  lemma {:induction false} RejectionsStayWithTheirCaller(steps: seq<Step>, n: nat)
    requires n < |After(WITH_LOCK, steps).calls|
    ensures var c := After(WITH_LOCK, steps).calls[n];
            && (!c.run.Pending? ==> (c.run.Fulfilled? <==> c.body.Fulfilled?) && (c.run.Rejected? ==> c.run.cause == Typed))
            && (!c.link.Pending? ==> c.link.Fulfilled?)
  {
    ReachableInv(WITH_LOCK, steps);
    assert CallSound(WITH_LOCK, After(WITH_LOCK, steps).calls[n]);
  }

  /** Every body runs in every run exactly when one of the two rejection handlers is there: the second
      `fn`, or the swallow. With neither, a call after a rejected one is skipped. */
  lemma {:induction false} EveryBodyRunsExactly(w: Wiring)
    ensures (Robust(w) <==>
             forall steps, n :: 0 <= n < |After(w, steps).calls| && After(w, steps).calls[n].fired ==> After(w, steps).calls[n].began)
  {
    if Robust(w) {
      forall steps, n | 0 <= n < |After(w, steps).calls| && After(w, steps).calls[n].fired
        ensures After(w, steps).calls[n].began
      {
        ReachableInv(w, steps);
        assert CallSound(w, After(w, steps).calls[n]);
      }
    } else {
      SkippedBody(w);
    }
  }

  lemma {:induction false} SkippedBody(w: Wiring)
    requires !Robust(w)
    ensures exists steps :: |After(w, steps).calls| == 2 && After(w, steps).calls[1].fired && !After(w, steps).calls[1].began
  {
    var s2 := [Invoke] + [Invoke];
    AfterSnoc(w, [], Invoke);
    AfterSnoc(w, [Invoke], Invoke);
    var s3 := s2 + [FireBody(0)];
    AfterSnoc(w, s2, FireBody(0));
    var s4 := s3 + [EndBody(0, Rejected(Raw))];
    AfterSnoc(w, s3, EndBody(0, Rejected(Raw)));
    var s5 := s4 + [FireRun(0)];
    AfterSnoc(w, s4, FireRun(0));
    var s6 := s5 + [FireLink(0)];
    AfterSnoc(w, s5, FireLink(0));
    var s7 := s6 + [FireBody(1)];
    AfterSnoc(w, s6, FireBody(1));
    assert |After(w, s7).calls| == 2 && After(w, s7).calls[1].fired && !After(w, s7).calls[1].began;
  }

  lemma {:induction false} AfterSnoc(w: Wiring, steps: seq<Step>, step: Step)
    ensures After(w, steps + [step]) == Next(w, After(w, steps), step)
  {
    assert (steps + [step])[..|steps|] == steps;
  }

  /** The store never stalls: while a call's promises are not all settled, a reaction can fire or a body
      is running; so failures block nothing. */
  lemma {:induction false} NeverStalls(w: Wiring, steps: seq<Step>)
    requires Robust(w)
    ensures var s := After(w, steps);
            || (forall n :: 0 <= n < |s.calls| ==> !s.calls[n].link.Pending? && s.calls[n].began)
            || (exists n :: Enabled(s, FireBody(n)) || Enabled(s, FireRun(n)) || Enabled(s, FireLink(n)))
            || (exists n :: 0 <= n < |s.calls| && Running(s.calls[n]))
  {
    var s := After(w, steps);
    ReachableInv(w, steps);
    if n :| 0 <= n < |s.calls| && s.calls[n].link.Pending? {
      var first := FirstPending(s, n);
      assert CallSound(w, s.calls[first]);
      assert Enabled(s, FireBody(first)) || Enabled(s, FireRun(first)) || Enabled(s, FireLink(first)) || Running(s.calls[first]);
    } else {
      forall n | 0 <= n < |s.calls| ensures s.calls[n].began {
        assert CallSound(w, s.calls[n]);
      }
    }
  }

  lemma {:induction false} FirstPending(s: State, n: nat) returns (first: nat)
    requires n < |s.calls| && s.calls[n].link.Pending?
    ensures first <= n && s.calls[first].link.Pending? && !Before(s, first).Pending?
    decreases n
  {
    first := n;
    if n > 0 && s.calls[n - 1].link.Pending? {
      first := FirstPending(s, n - 1);
    }
  }

  /** What is left of a call: its reaction, its body's end, and the two promises after it. */
  function Stage(c: Call): nat {
    (if c.fired then 0 else 1) + (if c.body.Pending? then 1 else 0) + (if c.run.Pending? then 1 else 0) +
    (if c.link.Pending? then 1 else 0)
  }

  function Work(calls: seq<Call>): nat {
    if calls == [] then 0 else Work(calls[..|calls| - 1]) + Stage(calls[|calls| - 1])
  }

  lemma {:induction false} WorkAt(calls: seq<Call>, n: nat, c: Call)
    requires n < |calls|
    ensures Work(calls[n := c]) == Work(calls) - Stage(calls[n]) + Stage(c)
    decreases |calls|
  {
    var last := |calls| - 1;
    if n < last {
      assert calls[n := c][..last] == calls[..last][n := c];
      WorkAt(calls[..last], n, c);
    } else {
      assert calls[n := c][..last] == calls[..last];
    }
  }

  /** And it comes to an end: each reaction and each end of a body leaves less to do. */
  lemma {:induction false} ReactionsRunOut(w: Wiring, steps: seq<Step>, step: Step)
    requires Enabled(After(w, steps), step) && (step.FireBody? || step.EndBody? || step.FireRun? || step.FireLink?)
    ensures Work(Next(w, After(w, steps), step).calls) < Work(After(w, steps).calls)
  {
    var s := After(w, steps);
    ReachableInv(w, steps);
    assert CallSound(w, s.calls[step.n]);
    WorkAt(s.calls, step.n, Next(w, s, step).calls[step.n]);
    assert Next(w, s, step).calls == s.calls[step.n := Next(w, s, step).calls[step.n]];
    if step.FireBody? && step.n > 0 {
      assert CallSound(w, s.calls[step.n - 1]);
    }
  }

  // ----- the chain refines the queue -----

  /** How many calls' bodies have ended: those are the first ones. */
  function Turn(calls: seq<Call>): (t: nat)
    ensures t <= |calls|
    ensures forall i :: 0 <= i < t ==> !calls[i].body.Pending?
    ensures t < |calls| ==> calls[t].body.Pending?
  {
    if calls == [] || calls[0].body.Pending? then 0
    else
      var t := Turn(calls[1..]);
      assert forall i :: 0 < i < t + 1 ==> calls[i] == calls[1..][i - 1];
      t + 1
  }

  function Queue(calls: seq<Call>, t: nat): (chain: seq<Q.Operation>)
    requires t <= |calls|
    ensures |chain| == |calls| - t
    ensures forall i :: 0 <= i < |chain| ==> chain[i] == Q.Operation(t + i, calls[t + i].isClose)
    decreases |calls| - t
  {
    if t == |calls| then [] else [Q.Operation(t, calls[t].isClose)] + Queue(calls, t + 1)
  }

  /** The queue this state stands for. */
  function Seen(s: State): Q.State {
    var t := Turn(s.calls);
    Q.State(s.closing, s.closed, Queue(s.calls, t), t < |s.calls| && s.calls[t].began, |s.calls|, s.firstClose, s.log)
  }

  /** What a step is in the queue, if anything. */
  function SeenStep(s: State, step: Step): Option<Q.Step> {
    if !Enabled(s, step) then None
    else match step
         case Invoke => Some(Q.Call)
         case Close => Some(Q.Close)
         case FireBody(_) => Some(Q.Begin)
         case IssueQuery(_) => Some(Q.IssueQuery)
         case EndBody(_, result) => Some(Q.Settle(result.Fulfilled?))
         case FireRun(_) => None
         case FireLink(_) => None
  }

  /** In a sound state there is only one turn a call can have. */
  lemma {:induction false} TurnIs(calls: seq<Call>, t: nat)
    requires t <= |calls| && (forall i :: 0 <= i < t ==> !calls[i].body.Pending?) && (t < |calls| ==> calls[t].body.Pending?)
    ensures Turn(calls) == t
  {
  }

  lemma {:induction false} SameQueue(a: seq<Call>, b: seq<Call>, t: nat)
    requires |a| == |b| && t <= |a| && forall i :: 0 <= i < |a| ==> a[i].isClose == b[i].isClose
    ensures Queue(a, t) == Queue(b, t)
  {
  }

  /** A call whose turn it is not has not begun, or has ended. */
  lemma TurnOf(w: Wiring, s: State, n: nat)
    requires Inv(w, s) && n < |s.calls| && s.calls[n].body.Pending? && !Before(s, n).Pending?
    ensures Turn(s.calls) == n
  {
    LinksSettleInOrder(w, s, n);
    TurnIs(s.calls, n);
  }

  lemma RunningHasTurn(w: Wiring, s: State, n: nat)
    requires Inv(w, s) && n < |s.calls| && Running(s.calls[n])
    ensures Turn(s.calls) == n && (n + 1 < |s.calls| ==> !s.calls[n + 1].fired && !s.calls[n + 1].began && s.calls[n + 1].body.Pending?)
  {
    assert CallSound(w, s.calls[n]);
    if n + 1 < |s.calls| {
      assert CallSound(w, s.calls[n + 1]);
    }
    TurnOf(w, s, n);
  }

  lemma JoiningRefines(w: Wiring, s: State, isClose: bool)
    requires Inv(w, s)
    ensures var s' := WithLock(s, isClose);
            Seen(s') == Seen(s).(chain := Seen(s).chain + [Q.Operation(|s.calls|, isClose)], calls := |s.calls| + 1)
  {
    hide Turn, Queue, CallSound, Inv;
    var t, s' := Turn(s.calls), WithLock(s, isClose);
    TurnIs(s'.calls, t);
    assert Queue(s'.calls, t) == Queue(s.calls, t) + [Q.Operation(|s.calls|, isClose)];
  }

  lemma BeginRefines(w: Wiring, s: State, n: nat)
    requires Inv(w, s) && Robust(w) && Enabled(s, FireBody(n))
    ensures Seen(Next(w, s, FireBody(n))) == Q.Next(Seen(s), Q.Begin)
  {
    assert CallSound(w, s.calls[n]);
    TurnOf(w, s, n);
    if n > 0 {
      assert CallSound(w, s.calls[n - 1]);
    }
    var s' := BeginBody(s, n);
    assert Next(w, s, FireBody(n)) == s';
    hide Turn, Queue, Next, CallSound, Inv;
    TurnIs(s'.calls, n);
    SameQueue(s.calls, s'.calls, n);
  }

  lemma EndRefines(w: Wiring, s: State, n: nat, result: Promise)
    requires Inv(w, s) && Enabled(s, EndBody(n, result))
    ensures Seen(Next(w, s, EndBody(n, result))) == Q.Next(Seen(s), Q.Settle(result.Fulfilled?))
  {
    RunningHasTurn(w, s, n);
    var s' := Next(w, s, EndBody(n, result));
    hide Turn, Queue, CallSound, Inv;
    TurnIs(s'.calls, n + 1);
    SameQueue(s.calls, s'.calls, n);
    assert Queue(s.calls, n)[1..] == Queue(s'.calls, n + 1);
  }

  lemma SettlingIsUnseen(w: Wiring, s: State, n: nat, c: Call)
    requires n < |s.calls| && c.isClose == s.calls[n].isClose && c.began == s.calls[n].began && c.body == s.calls[n].body
    ensures Seen(Update(s, n, c)) == Seen(s)
  {
    var t := Turn(s.calls);
    TurnIs(Update(s, n, c).calls, t);
    SameQueue(s.calls, Update(s, n, c).calls, t);
  }

  /** Each step of the promises is one step of the queue, or none that the queue shows. */
  lemma StepRefines(w: Wiring, s: State, step: Step)
    requires Inv(w, s) && Robust(w)
    ensures Seen(Next(w, s, step)) ==
            match SeenStep(s, step) case Some(q) => Q.Next(Seen(s), q) case None => Seen(s)
  {
    hide Seen, Inv, CallSound;
    SeenFields(s);
    if Enabled(s, step) {
      match step
      case Invoke => JoiningRefines(w, s, false);
      case Close =>
        var shut := s.(closing := true, firstClose := if s.firstClose.Some? then s.firstClose else Some(|s.calls|));
        assert Inv(w, shut) by { ShutKeepsInv(w, s, shut); }
        ShutIsSeen(s, shut);
        JoiningRefines(w, shut, true);
      case FireBody(n) => BeginRefines(w, s, n);
      case IssueQuery(n) => QueryRefines(w, s, n);
      case EndBody(n, result) => EndRefines(w, s, n, result);
      case FireRun(n) => SettlingIsUnseen(w, s, n, Next(w, s, step).calls[n]);
      case FireLink(n) => SettlingIsUnseen(w, s, n, Next(w, s, step).calls[n]);
    }
  }

  lemma SeenFields(s: State)
    ensures var q := Seen(s); q.closing == s.closing && q.closed == s.closed && q.calls == |s.calls| && q.firstClose == s.firstClose && q.log == s.log
  {
  }

  lemma ShutKeepsInv(w: Wiring, s: State, shut: State)
    requires Inv(w, s) && shut.calls == s.calls
    ensures Inv(w, shut)
  {
  }

  lemma ShutIsSeen(s: State, shut: State)
    requires shut == s.(closing := true, firstClose := shut.firstClose)
    ensures Seen(shut) == Seen(s).(closing := true, firstClose := shut.firstClose)
  {
  }

  lemma QueryRefines(w: Wiring, s: State, n: nat)
    requires Inv(w, s) && Enabled(s, IssueQuery(n))
    ensures Seen(Next(w, s, IssueQuery(n))) == Q.Next(Seen(s), Q.IssueQuery)
  {
    RunningHasTurn(w, s, n);
  }

  /** Every run of the promises shows a run of the queue, event by event. */
  lemma {:induction false} RunRefines(w: Wiring, steps: seq<Step>) returns (queued: seq<Q.Step>)
    requires Robust(w)
    ensures Seen(After(w, steps)) == Q.After(queued) && After(w, steps).log == Q.After(queued).log
    ensures After(w, steps).firstClose == Q.After(queued).firstClose
  {
    queued := [];
    if steps == [] {
      assert Seen(OPEN) == Q.OPEN;
    } else {
      var before, step := steps[..|steps| - 1], steps[|steps| - 1];
      var s := After(w, before);
      queued := RunRefines(w, before);
      ReachableInv(w, before);
      StepRefines(w, s, step);
      if SeenStep(s, step).Some? {
        assert (queued + [SeenStep(s, step).value])[..|queued|] == queued;
        queued := queued + [SeenStep(s, step).value];
      }
      SeenFields(Next(w, s, step));
    }
  }

  // ----- the results on the runs -----

  /** The queries of two operations never interleave: the events follow the call order, whatever
      reactions fire in whatever order and whichever bodies reject. */
  lemma {:induction false} OperationsNeverInterleave(steps: seq<Step>, i: nat, j: nat, k: nat)
    requires i < j < k < |After(WITH_LOCK, steps).log|
    ensures var log := After(WITH_LOCK, steps).log;
            && log[i].number <= log[j].number
            && (log[i].number == log[k].number ==> log[j].number == log[i].number)
  {
    hide After, Q.After;
    var queued := RunRefines(WITH_LOCK, steps);
    Q.OperationsNeverInterleave(queued, i, j, k);
  }

  /** The connection ends at the first close() only, after every earlier body has ended; no operation
      called later queries, and no query follows. */
  lemma {:induction false} CloseIsClean(steps: seq<Step>, i: nat)
    requires i < |After(WITH_LOCK, steps).log| && After(WITH_LOCK, steps).log[i].ClientEnd?
    ensures var s := After(WITH_LOCK, steps);
            && s.firstClose == Some(s.log[i].number)
            && (forall e :: e in s.log && e.Query? ==> e.number < s.log[i].number)
            && (forall j :: 0 <= j < |s.log| && j != i ==> !s.log[j].ClientEnd?)
            && (forall j :: i < j < |s.log| ==> !s.log[j].Query?)
            && (forall n :: 0 <= n < s.log[i].number ==> Q.IsFinished(s.log[..i], n))
  {
    hide After, Q.After, Q.IsFinished;
    var queued := RunRefines(WITH_LOCK, steps);
    Q.CloseIsClean(queued, i);
  }

  /** Once every body of a store that was closed has ended, its connection has. */
  lemma {:induction false} ClosedStoreEnds(steps: seq<Step>)
    requires After(WITH_LOCK, steps).firstClose.Some?
    requires forall n :: 0 <= n < |After(WITH_LOCK, steps).calls| ==> !After(WITH_LOCK, steps).calls[n].body.Pending?
    ensures exists e :: e in After(WITH_LOCK, steps).log && e.ClientEnd? && Some(e.number) == After(WITH_LOCK, steps).firstClose
  {
    hide After, Q.After;
    var queued := RunRefines(WITH_LOCK, steps);
    TurnIs(After(WITH_LOCK, steps).calls, |After(WITH_LOCK, steps).calls|);
    Q.ClosedStoreEnds(queued);
  }

  /** The store is open to a call exactly until close() is called; a call let in, or a close, takes the next
      place in the chain. */
  lemma {:induction false} OpenUntilClose(w: Wiring, steps: seq<Step>)
    ensures Enabled(After(w, steps), Invoke) <==> Close !in steps
    ensures |After(w, steps + [Invoke]).calls| == |After(w, steps).calls| + (if Close in steps then 0 else 1)
    ensures |After(w, steps + [Close]).calls| == |After(w, steps).calls| + 1
  {
    DoorTellsCloses(w, steps);
    AfterSnoc(w, steps, Invoke);
    AfterSnoc(w, steps, Close);
    hide After;
  }

  /** The flags, and the kind of each call, tell whether close() was called. */
  predicate DoorTells(s: State, shut: bool) {
    && s.closing == shut && (s.closed ==> shut)
    && forall n :: 0 <= n < |s.calls| && s.calls[n].isClose ==> shut
  }

  lemma {:induction false} DoorTellsCloses(w: Wiring, steps: seq<Step>)
    ensures DoorTells(After(w, steps), Close in steps)
  {
    if steps != [] {
      var init, last := steps[..|steps| - 1], steps[|steps| - 1];
      assert steps == init + [last];
      DoorTellsCloses(w, init);
      DoorStep(w, After(w, init), last, Close in init);
      hide DoorTells, Next;
    }
  }

  lemma DoorStep(w: Wiring, s: State, step: Step, shut: bool)
    requires DoorTells(s, shut)
    ensures DoorTells(Next(w, s, step), shut || step == Close)
  {
  }

  /** A call made after close() is turned away and leaves no trace. */
  lemma {:induction false} CallAfterCloseIsRejected(w: Wiring, steps: seq<Step>, more: seq<Step>)
    ensures var s := After(w, steps + [Close] + more); s.closing && Next(w, s, Invoke) == s
    decreases |more|
  {
    var all := steps + [Close] + more;
    if more == [] {
      assert all[..|all| - 1] == steps;
    } else {
      assert all[..|all| - 1] == steps + [Close] + more[..|more| - 1];
      CallAfterCloseIsRejected(w, steps, more[..|more| - 1]);
    }
  }

  // ----- the store object -----

  class PostgresPersistenceStore {
    var closing: bool
    var closed: bool
    var calls: seq<Call>
    ghost var firstClose: Option<nat>
    ghost var log: seq<Q.Event>

    ghost function Now(): State
      reads this
    {
      State(closing, closed, calls, firstClose, log)
    }

    constructor ()
      ensures Now() == OPEN
    {
      closing, closed, calls, firstClose, log := false, false, [], None, [];
    }

    /** #assertOpen, then #withLock: a public method throws store_closed or adds its promises to the
        chain, in one synchronous stretch. */
    method Enter() returns (admitted: bool)
      modifies this
      ensures Now() == Next(WITH_LOCK, old(Now()), Invoke)
      ensures admitted == Admitted(old(Now()))
    {
      admitted := !closing && !closed;
      if admitted { Chain(false); }
    }

    method Chain(isClose: bool)
      modifies `calls
      ensures Now() == WithLock(old(Now()), isClose)
    {
      calls := calls + [Call(isClose, false, false, Pending, Pending, Pending)];
    }

    /** close(): shut the door synchronously, then join the chain behind everything called before. */
    method Shut()
      modifies this
      ensures Now() == Next(WITH_LOCK, old(Now()), Close)
    {
      closing := true;
      firstClose := if firstClose.Some? then firstClose else Some(|calls|);
      Chain(true);
    }

    /** The reaction on the promise before: `fn` is called on either outcome. The body of a close ends the
        client unless an earlier close has. */
    method React(n: nat) returns (endsClient: bool)
      requires Enabled(Now(), FireBody(n))
      modifies this
      ensures Now() == Next(WITH_LOCK, old(Now()), FireBody(n))
      ensures endsClient <==> closed && !old(closed)
    {
      calls := calls[n := calls[n].(fired := true, began := true)];
      log := log + [Q.Began(n)];
      endsClient := calls[n].isClose && !closed;
      if endsClient {
        closed := true;
        log := log + [Q.ClientEnd(n)];
      }
    }
  }
}
