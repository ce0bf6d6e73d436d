/** Any number of workers each run one batch: claim, let the handler settle each item in turn, mark
    it; interleaved, failing or crashing between any two steps. */
module OutboxWorker {
  import opened Wrappers
  import opened Ordering
  import opened Outbox
  import opened OutboxRuns

  const MAX_RETRY_DELAY_MS := 86_400_000

  /** Handling: the handler runs. Resolved: its success is about to be marked. Caught: the handler or
      the success mark failed, and the failure is about to be marked. */
  datatype Phase = Handling | Resolved | Caught

  datatype Worker =
    | Busy(batch: seq<Item>, at: nat, phase: Phase, now: int, retryDelayMs: int, succeeded: nat, failed: nat)
    | Returned(processed: nat, succeeded: nat, failed: nat)
    | Aborted
    | Crashed

  /** The report once the loop has passed the last item. */
  function Settle(w: Worker): Worker
    requires w.Busy?
  {
    if w.at >= |w.batch| then Returned(|w.batch|, w.succeeded, w.failed) else w
  }

  function Begin(r: Run, now: int, limit: nat, retryDelayMs: int): (Run, Worker)
    requires WellKeyed(r.table)
  {
    (Next(r, DoClaim(now, limit)), Settle(Busy(Claim(r.table, now, limit).1, 0, Handling, now, retryDelayMs, 0, 0)))
  }

  function HandlerSettles(w: Worker, ok: bool): Worker {
    if w.Busy? && w.at < |w.batch| && w.phase == Handling then w.(phase := if ok then Resolved else Caught) else w
  }

  /** The mark the worker is about to make. A success mark that throws lands in the catch block; a
      failure mark that throws, or an unusable retry delay, ends the batch. */
  function Mark(r: Run, w: Worker, fault: Fault): (Run, Worker)
    requires WellKeyed(r.table)
  {
    if !w.Busy? || w.at >= |w.batch| || w.phase == Handling then (r, w)
    else
      var id, lease := w.batch[w.at].id, w.batch[w.at].leaseId;
      var accepted := Fenced(r.table, id, lease) && fault == NoFault;
      if w.phase == Resolved then
        (if fault == BeforeWrite then r else Next(r, DoSucceed(id, lease, w.now)),
         if accepted then Settle(w.(at := w.at + 1, phase := Handling, succeeded := w.succeeded + 1))
         else w.(phase := Caught))
      else if !(0 <= w.retryDelayMs <= MAX_RETRY_DELAY_MS) then (r, Aborted)
      else
        (if fault == BeforeWrite then r else Next(r, DoFail(id, lease, w.now + w.retryDelayMs, w.now)),
         if accepted then Settle(w.(at := w.at + 1, phase := Handling, failed := w.failed + 1))
         else Aborted)
  }

  /** `resolved` collects the (item, lease) pairs whose handler call resolved. */
  datatype System = System(run: Run, workers: map<nat, Worker>, resolved: set<(string, nat)>)

  const START := System(OutboxRuns.EMPTY, map[], {})

  datatype Action =
    | Enqueues(id: string, payloadHash: string, createdAt: int, nextAttemptAt: Option<int>)
    | Starts(w: nat, now: int, limit: nat, retryDelayMs: int)
    | Settles(w: nat, ok: bool)
    | Marks(w: nat, fault: Fault)
    | Dies(w: nat)

  function Act(s: System, a: Action): (s': System)
    requires WellKeyed(s.run.table)
    ensures WellKeyed(s'.run.table)
  {
    match a
    case Enqueues(id, payloadHash, createdAt, nextAttemptAt) =>
      s.(run := Next(s.run, DoEnqueue(id, payloadHash, createdAt, nextAttemptAt)))
    case Starts(w, now, limit, retryDelayMs) =>
      if w in s.workers then s
      else var (r', w') := Begin(s.run, now, limit, retryDelayMs); System(r', s.workers[w := w'], s.resolved)
    case Settles(w, ok) =>
      if w !in s.workers then s
      else
        var old_, new_ := s.workers[w], HandlerSettles(s.workers[w], ok);
        System(s.run, s.workers[w := new_],
               if ok && new_ != old_ then s.resolved + {(old_.batch[old_.at].id, old_.batch[old_.at].leaseId)} else s.resolved)
    case Marks(w, fault) =>
      if w !in s.workers then s
      else var (r', w') := Mark(s.run, s.workers[w], fault); s.(run := r', workers := s.workers[w := w'])
    case Dies(w) =>
      if w !in s.workers then s else s.(workers := s.workers[w := Crashed])
  }

  function After(actions: seq<Action>): (s: System)
    ensures WellKeyed(s.run.table)
  {
    if actions == [] then START else Act(After(actions[..|actions| - 1]), actions[|actions| - 1])
  }

  // ----- the invariant -----

  predicate WorkerSound(s: System, w: Worker) {
    match w
    case Busy(batch, at, phase, _, _, succeeded, failed) =>
      && at < |batch| && at == succeeded + failed
      && (forall i :: 0 <= i < |batch| ==> batch[i].id in s.run.table && batch[i].leaseId <= s.run.table[batch[i].id].leaseId)
      && (phase == Resolved ==> (batch[at].id, batch[at].leaseId) in s.resolved)
    case Returned(processed, succeeded, failed) => processed == succeeded + failed
    case _ => true
  }

  /** No (item, lease) pair is held by both. */
  predicate Apart(v: Worker, w: Worker) {
    v.Busy? && w.Busy? ==>
      forall i, j :: 0 <= i < |v.batch| && 0 <= j < |w.batch| && v.batch[i].id == w.batch[j].id ==>
        v.batch[i].leaseId != w.batch[j].leaseId
  }

  ghost predicate Inv(s: System) {
    && WellKeyed(s.run.table)
    && OutboxRuns.Inv(s.run)
    && (forall w :: w in s.workers ==> WorkerSound(s, s.workers[w]))
    && (forall id, leaseId: nat, at :: Done(id, leaseId, at) in s.run.log ==> (id, leaseId) in s.resolved)
    && (forall v, w :: v in s.workers && w in s.workers && v != w ==> Apart(s.workers[v], s.workers[w]))
  }

  /** A store step leaves every worker sound: rows stay and leases never go back. */
  lemma StoreStepKeepsWorkers(s: System, step: Step, s': System)
    requires Inv(s) && s'.run == Next(s.run, step)
    requires s.resolved <= s'.resolved
    ensures forall w :: WorkerSound(s, w) ==> WorkerSound(s', w)
    ensures OutboxRuns.Inv(s'.run)
  {
    hide OutboxRuns.Inv;
    StepConservesRows(s.run, step);
    NextKeepsInv(s.run, step);
  }

  lemma NewDone(r: Run, step: Step)
    requires WellKeyed(r.table)
    ensures forall id, leaseId, at :: Done(id, leaseId, at) in Next(r, step).log ==>
              Done(id, leaseId, at) in r.log || (step.DoSucceed? && step.id == id && step.leaseId == leaseId)
  {
  }

  /** Every item just claimed stands in the table under a lease one above its last. */
  lemma NewBatch(r: Run, now: int, limit: nat)
    requires WellKeyed(r.table)
    ensures var (t', items) := Claim(r.table, now, limit);
            forall i :: 0 <= i < |items| ==>
              (items[i].id in r.table && items[i].leaseId == r.table[items[i].id].leaseId + 1
               && items[i].id in t' && items[i] == t'[items[i].id])
  {
    hide Eligible, Batch;
    ClaimLeasesLeastDue(r.table, now, limit);
    var keys := Batch(r.table, now, limit);
    forall i | 0 <= i < |keys| ensures r.table[keys[i].id].id == keys[i].id {
    }
  }

  lemma StartKeepsInv(s: System, w: nat, now: int, limit: nat, retryDelayMs: int)
    requires Inv(s) && w !in s.workers
    ensures Inv(Act(s, Starts(w, now, limit, retryDelayMs)))
  {
    hide OutboxRuns.Inv, Claim;
    var s' := Act(s, Starts(w, now, limit, retryDelayMs));
    StoreStepKeepsWorkers(s, DoClaim(now, limit), s');
    NewDone(s.run, DoClaim(now, limit));
    NewBatch(s.run, now, limit);
    forall v | v in s.workers ensures Apart(s.workers[v], s'.workers[w]) && Apart(s'.workers[w], s.workers[v]) {
      assert WorkerSound(s, s.workers[v]);
    }
  }

  function MarkStep(w: Worker): Step
    requires w.Busy? && w.at < |w.batch|
  {
    var item := w.batch[w.at];
    if w.phase == Resolved then DoSucceed(item.id, item.leaseId, w.now)
    else DoFail(item.id, item.leaseId, w.now + w.retryDelayMs, w.now)
  }

  /** A mark leaves the store alone or is one store step, and moves its own worker only. */
  lemma MarkIsOneStep(r: Run, w: Worker, fault: Fault)
    requires WellKeyed(r.table)
    ensures var (r', w') := Mark(r, w, fault);
            && (r' == r || (w.Busy? && w.at < |w.batch| && r' == Next(r, MarkStep(w))))
            && (w'.Busy? ==> w.Busy? && w'.batch == w.batch)
  {
  }

  lemma MarkKeepsInv(s: System, w: nat, fault: Fault)
    requires Inv(s) && w in s.workers
    ensures Inv(Act(s, Marks(w, fault)))
  {
    hide OutboxRuns.Inv, Next, Fenced;
    var s' := Act(s, Marks(w, fault));
    var old_ := s.workers[w];
    assert WorkerSound(s, old_);
    MarkIsOneStep(s.run, old_, fault);
    if s'.run != s.run {
      StoreStepKeepsWorkers(s, MarkStep(old_), s');
      NewDone(s.run, MarkStep(old_));
    }
    forall v, u | v in s'.workers && u in s'.workers && v != u ensures Apart(s'.workers[v], s'.workers[u]) {
      assert Apart(s.workers[v], s.workers[u]);
      WorkersStayApart(s.workers[v], s.workers[u], s'.workers[v], s'.workers[u]);
    }
  }

  lemma WorkersStayApart(v: Worker, u: Worker, v': Worker, u': Worker)
    requires Apart(v, u) && (v'.Busy? ==> v.Busy? && v'.batch == v.batch) && (u'.Busy? ==> u.Busy? && u'.batch == u.batch)
    ensures Apart(v', u')
  {
  }

  lemma ActKeepsInv(s: System, a: Action)
    requires Inv(s)
    ensures Inv(Act(s, a))
  {
    hide OutboxRuns.Inv, GoodLog, Next, Fenced, Claim;
    match a
    case Starts(w, now, limit, retryDelayMs) =>
      if w !in s.workers { StartKeepsInv(s, w, now, limit, retryDelayMs); }
    case Marks(w, fault) =>
      if w in s.workers { MarkKeepsInv(s, w, fault); }
    case Enqueues(id, payloadHash, createdAt, nextAttemptAt) =>
      var step := DoEnqueue(id, payloadHash, createdAt, nextAttemptAt);
      StoreStepKeepsWorkers(s, step, Act(s, a));
      NewDone(s.run, step);
    case Settles(w, ok) =>
      forall v, u | v in s.workers && u in s.workers && v != u
        ensures Apart(Act(s, a).workers[v], Act(s, a).workers[u])
      {
        assert Apart(s.workers[v], s.workers[u]);
      }
    case Dies(w) =>
  }

  lemma {:induction false} ReachableInv(actions: seq<Action>)
    ensures Inv(After(actions))
  {
    if actions == [] {
      assert OutboxRuns.Inv(OutboxRuns.EMPTY);
    } else {
      ReachableInv(actions[..|actions| - 1]);
      ActKeepsInv(After(actions[..|actions| - 1]), actions[|actions| - 1]);
    }
  }

  // ----- the results -----

  /** In every run: an item is marked succeeded only under a lease whose handler call resolved, and a
      batch that returns normally has accounted for every item it claimed. */
  lemma {:induction false} SucceededMeansResolved(actions: seq<Action>, id: string, leaseId: nat, w: nat)
    ensures (exists at :: Done(id, leaseId, at) in After(actions).run.log) ==> (id, leaseId) in After(actions).resolved
    ensures w in After(actions).workers && After(actions).workers[w].Returned? ==>
              var report := After(actions).workers[w]; report.processed == report.succeeded + report.failed
  {
    ReachableInv(actions);
    assert w in After(actions).workers ==> WorkerSound(After(actions), After(actions).workers[w]);
  }

  /** In every run no two workers hold one item under one lease. */
  lemma {:induction false} NoSharedLease(actions: seq<Action>, v: nat, w: nat)
    requires v in After(actions).workers && w in After(actions).workers && v != w
    ensures Apart(After(actions).workers[v], After(actions).workers[w])
  {
    ReachableInv(actions);
  }

  /** The workers are exactly those that were started, and any of them may crash at any point, leaving the
      store to the others as it is. */
  lemma {:induction false} WorkersWereStarted(actions: seq<Action>, w: nat)
    ensures w in After(actions).workers <==> exists i :: 0 <= i < |actions| && actions[i].Starts? && actions[i].w == w
    ensures w in After(actions).workers ==>
              Act(After(actions), Dies(w)) == After(actions).(workers := After(actions).workers[w := Crashed])
  {
    if actions != [] {
      var init, last := actions[..|actions| - 1], actions[|actions| - 1];
      WorkersWereStarted(init, w);
      assert actions == init + [last];
      hide Begin, Mark, HandlerSettles, Next;
      if i :| 0 <= i < |init| && init[i].Starts? && init[i].w == w {
        assert actions[i].Starts? && actions[i].w == w;
      }
      if i :| 0 <= i < |actions| && actions[i].Starts? && actions[i].w == w {
        assert i < |init| ==> init[i].Starts? && init[i].w == w;
      }
    }
  }

  /** A lease once lost stays lost, whatever the store is asked to do. */
  lemma StaleStaysStale(r: Run, step: Step, id: string, leaseId: nat)
    requires OutboxRuns.Inv(r) && id in r.table && leaseId <= r.table[id].leaseId && !Fenced(r.table, id, leaseId)
    ensures var r' := Next(r, step);
            id in r'.table && leaseId <= r'.table[id].leaseId && !Fenced(r'.table, id, leaseId)
  {
    hide GoodLog, RowMatches, Batch;
    if step.DoClaim? {
      BatchKeys(r.table, step.now, step.limit);
      LeaseAllRows(r.table, Batch(r.table, step.now, step.limit), step.now);
    }
  }

  lemma {:induction false} StaleStaysStaleThroughout(s: System, more: seq<Action>, id: string, leaseId: nat)
    requires Inv(s) && id in s.run.table && leaseId <= s.run.table[id].leaseId && !Fenced(s.run.table, id, leaseId)
    ensures Inv(Continue(s, more)) && !Fenced(Continue(s, more).run.table, id, leaseId)
    decreases |more|
  {
    if more != [] {
      ActKeepsInv(s, more[0]);
      StaleAfterAct(s, more[0], id, leaseId);
      StaleStaysStaleThroughout(Act(s, more[0]), more[1..], id, leaseId);
    }
  }

  lemma StaleAfterAct(s: System, a: Action, id: string, leaseId: nat)
    requires Inv(s) && id in s.run.table && leaseId <= s.run.table[id].leaseId && !Fenced(s.run.table, id, leaseId)
    ensures var t := Act(s, a).run.table; id in t && leaseId <= t[id].leaseId && !Fenced(t, id, leaseId)
  {
    hide OutboxRuns.Inv;
    forall step {
      StaleStaysStale(s.run, step, id, leaseId);
    }
  }

  function Continue(s: System, more: seq<Action>): (s': System)
    requires WellKeyed(s.run.table)
    ensures WellKeyed(s'.run.table)
    decreases |more|
  {
    if more == [] then s else Continue(Act(s, more[0]), more[1..])
  }

  /** When the success mark of a resolved item finds its lease stale, the batch is lost: the mark
      falls into the catch block, and whatever the others do meanwhile, the failure mark that
      follows is stale too and aborts the batch. */
  lemma {:induction false} StaleSuccessAbortsBatch(s: System, w: nat, more: seq<Action>, fault: Fault)
    requires Inv(s) && w in s.workers && s.workers[w].Busy? && s.workers[w].phase == Resolved
    requires var item := s.workers[w].batch[s.workers[w].at]; !Fenced(s.run.table, item.id, item.leaseId)
    requires var s1 := Continue(Act(s, Marks(w, NoFault)), more);
             w in s1.workers && s1.workers[w] == s.workers[w].(phase := Caught)
    ensures Act(s, Marks(w, NoFault)).workers[w] == s.workers[w].(phase := Caught)
    ensures Act(Continue(Act(s, Marks(w, NoFault)), more), Marks(w, fault)).workers[w] == Aborted
  {
    hide OutboxRuns.Inv;
    var item := s.workers[w].batch[s.workers[w].at];
    assert WorkerSound(s, s.workers[w]);
    ActKeepsInv(s, Marks(w, NoFault));
    StaleAfterAct(s, Marks(w, NoFault), item.id, item.leaseId);
    StaleStaysStaleThroughout(Act(s, Marks(w, NoFault)), more, item.id, item.leaseId);
  }
}
