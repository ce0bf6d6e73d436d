/** migrate(): any number of processes on one database, each statement able to fail and each process
    able to die between two statements. */
module Migrations {
  import opened Wrappers

  datatype Migration = Migration(id: string, version: nat, checksum: string)

  datatype AppliedRow = AppliedRow(version: nat, checksum: string)

  /** The lock table holds at most one row; a holder is the random name of one migrate() call. */
  datatype Database = Database(lock: Option<nat>, applied: map<string, AppliedRow>)

  /** StatementFailed is a driver's error passed on as it is, from a SELECT outside the transactions. */
  datatype MigrateError = LockHeld | ChecksumMismatch | MigrationFailed | StatementFailed

  datatype Report = Report(appliedMigrations: seq<string>, alreadyCurrent: bool)

  predicate DistinctIds(ms: seq<Migration>) {
    forall i, j :: 0 <= i < j < |ms| ==> ms[i].id != ms[j].id
  }

  // ----- the statements -----

  function AcquireLock(db: Database, holder: nat): Option<Database> {
    if db.lock.None? then Some(db.(lock := Some(holder))) else None
  }

  /** DELETE ... WHERE holder = ?: only ever one's own lock. */
  function ReleaseLock(db: Database, holder: nat): Database {
    if db.lock == Some(holder) then db.(lock := None) else db
  }

  predicate RowExpected(ms: seq<Migration>, id: string, row: AppliedRow) {
    exists i :: 0 <= i < |ms| && ms[i].id == id && ms[i].version == row.version && ms[i].checksum == row.checksum
  }

  predicate ChecksumsMatch(ms: seq<Migration>, db: Database) {
    forall id :: id in db.applied ==> RowExpected(ms, id, db.applied[id])
  }

  /** One transaction: the migration's statements and its row, or nothing. */
  function ApplyOne(db: Database, m: Migration): Database {
    db.(applied := db.applied[m.id := AppliedRow(m.version, m.checksum)])
  }

  // ----- one call, statement by statement -----

  datatype Call =
    | Waiting
    | Locked
    | Applying(next: nat, done: seq<string>)
    | Committing(next: nat, done: seq<string>)
    | Releasing(outcome: Result<Report, MigrateError>)
    | Finished(outcome: Result<Report, MigrateError>)
    | Dead

  /** `fails` is a database fault at this statement. A failed release is swallowed: the lock stays.
      Applying looks the next migration up; Committing is its transaction. */
  function Advance(ms: seq<Migration>, db: Database, holder: nat, call: Call, fails: bool): (Database, Call) {
    match call
    case Waiting =>
      var locked := AcquireLock(db, holder);
      if fails || locked.None? then (db, Releasing(Err(LockHeld))) else (locked.value, Locked)
    case Locked =>
      if fails then (db, Releasing(Err(StatementFailed)))
      else if ChecksumsMatch(ms, db) then (db, Applying(0, []))
      else (db, Releasing(Err(ChecksumMismatch)))
    case Applying(next, done) =>
      if next >= |ms| then (db, Releasing(Ok(Report(done, done == []))))
      else if fails then (db, Releasing(Err(StatementFailed)))
      else if ms[next].id in db.applied then (db, Applying(next + 1, done))
      else (db, Committing(next, done))
    case Committing(next, done) =>
      if next >= |ms| || fails then (db, Releasing(Err(MigrationFailed)))
      else (ApplyOne(db, ms[next]), Applying(next + 1, done + [ms[next].id]))
    case Releasing(outcome) => (if fails then db else ReleaseLock(db, holder), Finished(outcome))
    case Finished(_) => (db, call)
    case Dead => (db, call)
  }

  /** `log` lists the migrations in the order their transactions committed. */
  datatype System = System(db: Database, calls: map<nat, Call>, log: seq<string>)

  datatype Step = Enter(holder: nat) | Proceed(holder: nat, fails: bool) | Die(holder: nat)

  function Next(ms: seq<Migration>, s: System, step: Step): System {
    match step
    case Enter(h) => if h in s.calls then s else s.(calls := s.calls[h := Waiting])
    case Die(h) => if h in s.calls then s.(calls := s.calls[h := Dead]) else s
    case Proceed(h, fails) =>
      if h !in s.calls then s
      else
        var (db', call') := Advance(ms, s.db, h, s.calls[h], fails);
        System(db', s.calls[h := call'],
               if s.calls[h].Committing? && db' != s.db then s.log + [ms[s.calls[h].next].id] else s.log)
  }

  function Run(ms: seq<Migration>, s: System, steps: seq<Step>): System
    decreases |steps|
  {
    if steps == [] then s else Run(ms, Next(ms, s, steps[0]), steps[1..])
  }

  // ----- the invariant -----

  /** The database holds exactly the first `k` migrations. */
  ghost predicate AppliedPrefix(ms: seq<Migration>, db: Database, k: nat) {
    && k <= |ms|
    && (forall i :: 0 <= i < k ==> ms[i].id in db.applied && db.applied[ms[i].id] == AppliedRow(ms[i].version, ms[i].checksum))
    && (forall id :: id in db.applied ==> exists i :: 0 <= i < k && ms[i].id == id)
  }

  predicate PastLock(call: Call) {
    call.Locked? || call.Applying? || call.Committing?
  }

  /** Started with `k0` migrations applied, the system has committed exactly the ones since, in order. */
  ghost predicate Inv(ms: seq<Migration>, k0: nat, k: nat, s: System) {
    && k0 <= k && AppliedPrefix(ms, s.db, k)
    && |s.log| == k - k0 && (forall i :: 0 <= i < |s.log| ==> s.log[i] == ms[k0 + i].id)
    && (forall h :: h in s.calls ==> CallSound(ms, k, s, h))
  }

  predicate CallSound(ms: seq<Migration>, k: nat, s: System, h: nat)
    requires h in s.calls
  {
    var call := s.calls[h];
    && (PastLock(call) ==> s.db.lock == Some(h))
    && (call.Applying? ==> call.next <= k <= |ms| && |call.done| <= call.next)
    && (call.Committing? ==> call.next == k < |ms| && |call.done| <= call.next)
    && ((call.Releasing? || call.Finished?) && call.outcome.Ok? ==>
         k == |ms| && (call.outcome.value.alreadyCurrent <==> call.outcome.value.appliedMigrations == []))
  }

  lemma PrefixMembership(ms: seq<Migration>, db: Database, k: nat, i: nat)
    requires DistinctIds(ms) && AppliedPrefix(ms, db, k) && i < |ms|
    ensures ms[i].id in db.applied <==> i < k
  {
  }

  lemma PrefixGrows(ms: seq<Migration>, db: Database, k: nat)
    requires DistinctIds(ms) && AppliedPrefix(ms, db, k) && k < |ms|
    ensures AppliedPrefix(ms, ApplyOne(db, ms[k]), k + 1)
  {
    var db' := ApplyOne(db, ms[k]);
    forall id | id in db'.applied ensures exists i :: 0 <= i < k + 1 && ms[i].id == id {
      if id != ms[k].id {
        var i :| 0 <= i < k && ms[i].id == id;
      }
    }
  }

  /** Untampered databases pass the checksum validation. */
  lemma PrefixPassesValidation(ms: seq<Migration>, db: Database, k: nat)
    requires AppliedPrefix(ms, db, k)
    ensures ChecksumsMatch(ms, db)
  {
  }

  function Applied(ms: seq<Migration>, s: System, step: Step, k: nat): nat {
    if step.Proceed? && step.holder in s.calls && s.calls[step.holder].Committing?
       && s.calls[step.holder].next < |ms| && ms[s.calls[step.holder].next].id !in s.db.applied && !step.fails
    then k + 1 else k
  }

  lemma CommitKeepsPrefix(ms: seq<Migration>, k0: nat, k: nat, s: System, step: Step)
    requires DistinctIds(ms) && Inv(ms, k0, k, s)
    ensures var k', s' := Applied(ms, s, step, k), Next(ms, s, step);
            && AppliedPrefix(ms, s'.db, k')
            && |s'.log| == k' - k0 && (forall i :: 0 <= i < |s'.log| ==> s'.log[i] == ms[k0 + i].id)
  {
    var s', k' := Next(ms, s, step), Applied(ms, s, step, k);
    if k' != k {
      var i := s.calls[step.holder].next;
      assert CallSound(ms, k, s, step.holder);
      PrefixMembership(ms, s.db, k, i);
      PrefixGrows(ms, s.db, k);
      assert s'.db == ApplyOne(s.db, ms[k]);
    } else {
      assert s'.db.applied == s.db.applied;
    }
  }

  lemma CallStaysSound(ms: seq<Migration>, k0: nat, k: nat, s: System, step: Step, h: nat)
    requires DistinctIds(ms) && Inv(ms, k0, k, s) && h in Next(ms, s, step).calls
    ensures CallSound(ms, Applied(ms, s, step, k), Next(ms, s, step), h)
  {
    if h in s.calls {
      assert CallSound(ms, k, s, h);
      if step.Proceed? && step.holder in s.calls {
        var mover := s.calls[step.holder];
        assert CallSound(ms, k, s, step.holder);
        if mover.Applying? && mover.next < |ms| {
          PrefixMembership(ms, s.db, k, mover.next);
        }
      }
    }
  }

  lemma NextKeepsInv(ms: seq<Migration>, k0: nat, k: nat, s: System, step: Step)
    requires DistinctIds(ms) && Inv(ms, k0, k, s)
    ensures Inv(ms, k0, Applied(ms, s, step, k), Next(ms, s, step))
  {
    hide Next, CallSound, AppliedPrefix;
    CommitKeepsPrefix(ms, k0, k, s, step);
    forall h | h in Next(ms, s, step).calls ensures CallSound(ms, Applied(ms, s, step, k), Next(ms, s, step), h) {
      CallStaysSound(ms, k0, k, s, step, h);
    }
  }

  /** Over any sequence of calls, faults and deaths the applied set stays a prefix of the list. */
  lemma {:induction false} AppliedStaysAPrefix(ms: seq<Migration>, k0: nat, k: nat, s: System, steps: seq<Step>) returns (k': nat)
    requires DistinctIds(ms) && Inv(ms, k0, k, s)
    ensures k <= k' && Inv(ms, k0, k', Run(ms, s, steps))
    decreases |steps|
  {
    k' := k;
    if steps != [] {
      NextKeepsInv(ms, k0, k, s, steps[0]);
      k' := AppliedStaysAPrefix(ms, k0, Applied(ms, s, steps[0], k), Next(ms, s, steps[0]), steps[1..]);
    }
  }

  /** A database with the first `k0` migrations applied and no call under way. */
  predicate Fresh(s: System) {
    s.calls == map[] && s.log == []
  }

  /** No migration commits twice, however many calls run, and the commits follow the list. */
  lemma {:induction false} EachMigrationCommitsOnce(ms: seq<Migration>, k0: nat, s: System, steps: seq<Step>)
    requires DistinctIds(ms) && Fresh(s) && AppliedPrefix(ms, s.db, k0)
    ensures var log := Run(ms, s, steps).log;
            && k0 + |log| <= |ms|
            && (forall i :: 0 <= i < |log| ==> log[i] == ms[k0 + i].id)
            && (forall i, j :: 0 <= i < j < |log| ==> log[i] != log[j])
    ensures AppliedPrefix(ms, Run(ms, s, steps).db, k0 + |Run(ms, s, steps).log|)
  {
    var k := AppliedStaysAPrefix(ms, k0, k0, s, steps);
    var log := Run(ms, s, steps).log;
    forall i, j | 0 <= i < j < |log| ensures log[i] != log[j] {
      assert ms[k0 + i].id != ms[k0 + j].id;
    }
  }

  /** At most one call is past the lock. */
  lemma {:induction false} OneCallPastTheLock(ms: seq<Migration>, k0: nat, s: System, steps: seq<Step>, g: nat, h: nat)
    requires DistinctIds(ms) && Fresh(s) && AppliedPrefix(ms, s.db, k0)
    requires var calls := Run(ms, s, steps).calls;
             g in calls && h in calls && PastLock(calls[g]) && PastLock(calls[h])
    ensures g == h && Run(ms, s, steps).db.lock == Some(h)
  {
    var k := AppliedStaysAPrefix(ms, k0, k0, s, steps);
    assert CallSound(ms, k, Run(ms, s, steps), g) && CallSound(ms, k, Run(ms, s, steps), h);
  }

  /** A lock is given back only by its holder, on its way out. */
  lemma OnlyTheHolderReleases(ms: seq<Migration>, s: System, step: Step, holder: nat)
    requires s.db.lock == Some(holder) && Next(ms, s, step).db.lock != Some(holder)
    ensures step == Proceed(holder, false) && holder in s.calls && s.calls[holder].Releasing?
    ensures Next(ms, s, step).db.lock == None
  {
  }

  /** A call that reports success has left every migration applied. */
  lemma {:induction false} SuccessMeansCurrent(ms: seq<Migration>, k0: nat, s: System, steps: seq<Step>, h: nat)
    requires DistinctIds(ms) && Fresh(s) && AppliedPrefix(ms, s.db, k0)
    requires var calls := Run(ms, s, steps).calls; h in calls && calls[h].Finished? && calls[h].outcome.Ok?
    ensures AppliedPrefix(ms, Run(ms, s, steps).db, |ms|)
  {
    var k := AppliedStaysAPrefix(ms, k0, k0, s, steps);
    assert CallSound(ms, k, Run(ms, s, steps), h);
  }

  /** What is known of a call that began when every migration was already applied. */
  predicate FoundCurrent(call: Call) {
    match call
    case Applying(_, done) => done == []
    case Committing(_, _) => false
    case Releasing(outcome) => outcome.Ok? ==> outcome.value == Report([], true)
    case Finished(outcome) => outcome.Ok? ==> outcome.value == Report([], true)
    case _ => true
  }

  /** A call made after another has succeeded reports, if it succeeds, that nothing was left to do. */
  lemma {:induction false} LaterCallsFindItCurrent(ms: seq<Migration>, k0: nat, s: System, h: nat, steps: seq<Step>)
    requires DistinctIds(ms) && Inv(ms, k0, |ms|, s)
    requires h in s.calls ==> FoundCurrent(s.calls[h])
    ensures var s' := Run(ms, s, steps);
            Inv(ms, k0, |ms|, s') && (h in s'.calls ==> FoundCurrent(s'.calls[h]))
    decreases |steps|
  {
    if steps != [] {
      NextKeepsInv(ms, k0, |ms|, s, steps[0]);
      var s1 := Next(ms, s, steps[0]);
      assert AppliedPrefix(ms, s1.db, Applied(ms, s, steps[0], |ms|));
      LaterCallsFindItCurrent(ms, k0, s1, h, steps[1..]);
    }
  }

  /** The call has not passed the checksum validation. */
  predicate NotAdmitted(call: Call) {
    match call
    case Applying(_, _) => false
    case Committing(_, _) => false
    case Releasing(outcome) => outcome.Err?
    case Finished(outcome) => outcome.Err?
    case _ => true
  }

  /** The row is of no migration of the list, or differs from it in version or checksum. */
  predicate Tampered(ms: seq<Migration>, db: Database, id: string) {
    id in db.applied &&
    forall m :: m in ms && m.id == id ==> m.version != db.applied[id].version || m.checksum != db.applied[id].checksum
  }

  lemma TamperedFails(ms: seq<Migration>, db: Database)
    ensures !ChecksumsMatch(ms, db) <==> exists id :: Tampered(ms, db, id)
  {
    forall id | id in db.applied ensures RowExpected(ms, id, db.applied[id]) <==> !Tampered(ms, db, id) {
      if m :| m in ms && m.id == id && m.version == db.applied[id].version && m.checksum == db.applied[id].checksum {
        var i :| 0 <= i < |ms| && ms[i] == m;
      }
    }
  }

  lemma {:induction false} MismatchIsLeftAlone(ms: seq<Migration>, s: System, steps: seq<Step>)
    requires !ChecksumsMatch(ms, s.db)
    requires forall h :: h in s.calls ==> NotAdmitted(s.calls[h])
    ensures var s' := Run(ms, s, steps);
            && s'.db.applied == s.db.applied && s'.log == s.log
            && forall h :: h in s'.calls && s'.calls[h].Finished? ==> s'.calls[h].outcome.Err?
    decreases |steps|
  {
    if steps != [] {
      MismatchIsLeftAlone(ms, Next(ms, s, steps[0]), steps[1..]);
    }
  }

  /** A database with a row of no migration of the list, or of another version or checksum than listed, is
      never touched again: no call applies anything to it and none reports success. */
  lemma {:induction false} TamperedDatabaseIsLeftAlone(ms: seq<Migration>, s: System, steps: seq<Step>)
    requires exists id :: Tampered(ms, s.db, id)
    requires forall h :: h in s.calls ==> NotAdmitted(s.calls[h])
    ensures var s' := Run(ms, s, steps);
            && s'.db.applied == s.db.applied && s'.log == s.log
            && forall h :: h in s'.calls && s'.calls[h].Finished? ==> s'.calls[h].outcome.Err?
  {
    TamperedFails(ms, s.db);
    MismatchIsLeftAlone(ms, s, steps);
  }

  // ----- one call run to its end -----

  function Left(ms: seq<Migration>, call: Call): nat {
    match call
    case Waiting => 2 * |ms| + 4
    case Locked => 2 * |ms| + 3
    case Applying(next, _) => if next < |ms| then 2 * (|ms| - next) + 2 else 2
    case Committing(next, _) => if next < |ms| then 2 * (|ms| - next) + 1 else 2
    case Releasing(_) => 1
    case _ => 0
  }

  /** The call's remaining statements with nothing in between; `faults(n)` says whether the n-th fails. */
  function RunCall(ms: seq<Migration>, db: Database, holder: nat, call: Call, faults: nat -> bool, n: nat): (Database, Call)
    decreases Left(ms, call)
  {
    if Left(ms, call) == 0 then (db, call)
    else
      var (db', call') := Advance(ms, db, holder, call, faults(n));
      RunCall(ms, db', holder, call', faults, n + 1)
  }

  /** A call left to itself is one of the system's runs. */
  lemma {:induction false} RunCallIsARun(ms: seq<Migration>, s: System, holder: nat, faults: nat -> bool, n: nat)
    returns (steps: seq<Step>)
    requires holder in s.calls
    ensures var (db', call') := RunCall(ms, s.db, holder, s.calls[holder], faults, n);
            var s' := Run(ms, s, steps);
            s'.db == db' && s'.calls == s.calls[holder := call']
    decreases Left(ms, s.calls[holder])
  {
    steps := [];
    if Left(ms, s.calls[holder]) > 0 {
      var step := Proceed(holder, faults(n));
      var s1 := Next(ms, s, step);
      AdvanceGoesOn(ms, s.db, holder, s.calls[holder], faults(n));
      var rest := RunCallIsARun(ms, s1, holder, faults, n + 1);
      steps := [step] + rest;
      assert s1.calls[holder := RunCall(ms, s1.db, holder, s1.calls[holder], faults, n + 1).1]
          == s.calls[holder := RunCall(ms, s1.db, holder, s1.calls[holder], faults, n + 1).1];
    } else {
      assert s.calls[holder := s.calls[holder]] == s.calls;
    }
  }

  lemma AdvanceGoesOn(ms: seq<Migration>, db: Database, holder: nat, call: Call, fails: bool)
    requires Left(ms, call) > 0
    ensures Left(ms, Advance(ms, db, holder, call, fails).1) < Left(ms, call)
  {
  }

  function Ids(ms: seq<Migration>): (ids: seq<string>)
    ensures |ids| == |ms|
    ensures forall i :: 0 <= i < |ms| ==> ids[i] == ms[i].id
  {
    seq(|ms|, i requires 0 <= i < |ms| => ms[i].id)
  }

  /** Without faults, a call on an untampered database whose lock is free applies exactly what is
      missing, reports it, and gives the lock back. */
  lemma FaultFreeCallMigrates(ms: seq<Migration>, db: Database, k: nat, holder: nat)
    requires DistinctIds(ms) && AppliedPrefix(ms, db, k) && db.lock.None?
    ensures var (db', call') := RunCall(ms, db, holder, Waiting, (_: nat) => false, 0);
            && call' == Finished(Ok(Report(Ids(ms)[k..], k == |ms|)))
            && db'.lock.None? && AppliedPrefix(ms, db', |ms|)
  {
    hide AppliedPrefix, ChecksumsMatch, Ids, RunCall;
    var faults := (_: nat) => false;
    var locked := db.(lock := Some(holder));
    PrefixKeepsLock(ms, db, k, Some(holder));
    PrefixPassesValidation(ms, locked, k);
    PastValidation(ms, db, holder, faults);
    PrefixBound(ms, locked, k);
    SkipApplied(ms, locked, k, holder, faults, 2, 0);
    assert Ids(ms)[k..k] == [];
    ApplyRest(ms, locked, k, k, holder, faults, 2 + k);
  }

  /** The first two statements of a call that meets a free lock and the checksums it expects. */
  lemma {:induction false} PastValidation(ms: seq<Migration>, db: Database, holder: nat, faults: nat -> bool)
    requires db.lock.None? && ChecksumsMatch(ms, db.(lock := Some(holder))) && !faults(0) && !faults(1)
    ensures RunCall(ms, db, holder, Waiting, faults, 0) ==
            RunCall(ms, db.(lock := Some(holder)), holder, Applying(0, []), faults, 2)
  {
  }

  lemma {:induction false} SkipApplied(ms: seq<Migration>, db: Database, k: nat, holder: nat, faults: nat -> bool, n: nat, i: nat)
    requires DistinctIds(ms) && AppliedPrefix(ms, db, k) && i <= k && forall j: nat :: !faults(j)
    ensures RunCall(ms, db, holder, Applying(i, []), faults, n) ==
            RunCall(ms, db, holder, Applying(k, []), faults, n + k - i)
    decreases k - i
  {
    hide AppliedPrefix, ChecksumsMatch;
    if i < k {
      PrefixBound(ms, db, k);
      PrefixMembership(ms, db, k, i);
      SkipApplied(ms, db, k, holder, faults, n + 1, i + 1);
    }
  }

  lemma {:induction false} ApplyRest(ms: seq<Migration>, db: Database, k0: nat, k: nat, holder: nat, faults: nat -> bool, n: nat)
    requires DistinctIds(ms) && k0 <= k && AppliedPrefix(ms, db, k) && db.lock == Some(holder)
    requires forall i: nat :: !faults(i)
    ensures var (db', call') := RunCall(ms, db, holder, Applying(k, Ids(ms)[k0..k]), faults, n);
            && call' == Finished(Ok(Report(Ids(ms)[k0..], k0 == |ms|)))
            && db'.lock.None? && AppliedPrefix(ms, db', |ms|)
    decreases |ms| - k
  {
    hide AppliedPrefix, ChecksumsMatch, RunCall, Ids;
    PrefixBound(ms, db, k);
    var ids := Ids(ms);
    if k < |ms| {
      PrefixMembership(ms, db, k, k);
      PrefixGrows(ms, db, k);
      assert ids[k0..k + 1] == ids[k0..k] + [ms[k].id];
      AppliesNext(ms, db, holder, k, ids[k0..k], faults, n);
      ApplyRest(ms, ApplyOne(db, ms[k]), k0, k + 1, holder, faults, n + 2);
    } else {
      assert ids[k0..k] == ids[k0..];
      PrefixKeepsLock(ms, db, k, None);
      AppliesNext(ms, db, holder, k, ids[k0..], faults, n);
      ReleasingEnds(ms, db, holder, Ok(Report(ids[k0..], ids[k0..] == [])), faults, n + 1);
      assert |ids[k0..]| == |ms| - k0;
    }
  }

  lemma {:induction false} AppliesNext(ms: seq<Migration>, db: Database, holder: nat, i: nat, done: seq<string>, faults: nat -> bool, n: nat)
    requires !faults(n) && !faults(n + 1) && (i < |ms| ==> ms[i].id !in db.applied)
    ensures i < |ms| ==> (RunCall(ms, db, holder, Applying(i, done), faults, n) ==
                          RunCall(ms, ApplyOne(db, ms[i]), holder, Applying(i + 1, done + [ms[i].id]), faults, n + 2))
    ensures i >= |ms| ==> (RunCall(ms, db, holder, Applying(i, done), faults, n) ==
                           RunCall(ms, db, holder, Releasing(Ok(Report(done, done == []))), faults, n + 1))
  {
  }

  lemma {:induction false} ReleasingEnds(ms: seq<Migration>, db: Database, holder: nat, outcome: Result<Report, MigrateError>,
                      faults: nat -> bool, n: nat)
    requires !faults(n)
    ensures RunCall(ms, db, holder, Releasing(outcome), faults, n) == (ReleaseLock(db, holder), Finished(outcome))
  {
  }

  lemma PrefixBound(ms: seq<Migration>, db: Database, k: nat)
    requires AppliedPrefix(ms, db, k)
    ensures k <= |ms|
  {
  }

  lemma PrefixKeepsLock(ms: seq<Migration>, db: Database, k: nat, lock: Option<nat>)
    requires AppliedPrefix(ms, db, k)
    ensures AppliedPrefix(ms, db.(lock := lock), k)
  {
  }

  /** The call has passed the validation, or ended without a mismatch. */
  predicate Accepted(call: Call) {
    match call
    case Waiting => false
    case Locked => false
    case Releasing(outcome) => outcome != Err(ChecksumMismatch)
    case Finished(outcome) => outcome != Err(ChecksumMismatch)
    case _ => true
  }

  lemma {:induction false} AcceptedStays(ms: seq<Migration>, db: Database, holder: nat, call: Call, faults: nat -> bool, n: nat)
    requires Accepted(call)
    ensures Accepted(RunCall(ms, db, holder, call, faults, n).1)
    decreases Left(ms, call)
  {
    if Left(ms, call) > 0 {
      AdvanceGoesOn(ms, db, holder, call, faults(n));
      var (db', call') := Advance(ms, db, holder, call, faults(n));
      AcceptedStays(ms, db', holder, call', faults, n + 1);
    }
  }

  /** A call that gets the lock and reads the rows is refused for a mismatch exactly when a row is of no
      migration of the list, or differs from it in version or checksum. */
  lemma {:induction false} RefusedExactly(ms: seq<Migration>, db: Database, holder: nat, faults: nat -> bool)
    requires db.lock.None? && !faults(0) && !faults(1)
    ensures RunCall(ms, db, holder, Waiting, faults, 0).1 == Finished(Err(ChecksumMismatch)) <==>
            exists id :: Tampered(ms, db, id)
  {
    var locked := db.(lock := Some(holder));
    TamperedFails(ms, locked);
    assert forall id :: Tampered(ms, locked, id) <==> Tampered(ms, db, id);
    hide ChecksumsMatch, Tampered;
    if ChecksumsMatch(ms, locked) {
      PastValidation(ms, db, holder, faults);
      AcceptedStays(ms, locked, holder, Applying(0, []), faults, 2);
    } else {
      RefusalRuns(ms, db, holder, faults);
    }
  }

  lemma {:induction false} RefusalRuns(ms: seq<Migration>, db: Database, holder: nat, faults: nat -> bool)
    requires db.lock.None? && !faults(0) && !faults(1) && !ChecksumsMatch(ms, db.(lock := Some(holder)))
    ensures RunCall(ms, db, holder, Waiting, faults, 0).1 == Finished(Err(ChecksumMismatch))
  {
    var locked := db.(lock := Some(holder));
    assert RunCall(ms, db, holder, Waiting, faults, 0) == RunCall(ms, locked, holder, Locked, faults, 1);
    assert RunCall(ms, locked, holder, Locked, faults, 1)
        == RunCall(ms, locked, holder, Releasing(Err(ChecksumMismatch)), faults, 2);
    var (db', call') := Advance(ms, locked, holder, Releasing(Err(ChecksumMismatch)), faults(2));
    assert RunCall(ms, locked, holder, Releasing(Err(ChecksumMismatch)), faults, 2) == RunCall(ms, db', holder, call', faults, 3);
  }

  /** A call that finds the lock held is refused and leaves the database as it is. */
  lemma {:induction false} HeldLockRefuses(ms: seq<Migration>, db: Database, holder: nat, faults: nat -> bool)
    requires db.lock.Some? && db.lock.value != holder
    ensures RunCall(ms, db, holder, Waiting, faults, 0) == (db, Finished(Err(LockHeld)))
  {
    assert RunCall(ms, db, holder, Waiting, faults, 0) == RunCall(ms, db, holder, Releasing(Err(LockHeld)), faults, 1);
    assert Advance(ms, db, holder, Releasing(Err(LockHeld)), faults(1)) == (db, Finished(Err(LockHeld)));
    assert RunCall(ms, db, holder, Finished(Err(LockHeld)), faults, 2) == (db, Finished(Err(LockHeld)));
  }

  /** The calls are exactly those that were made, each once, and any of them may die at any point, leaving the
      database to the others as it is. */
  lemma {:induction false} CallsWereMade(ms: seq<Migration>, s: System, steps: seq<Step>, h: nat)
    ensures h in Run(ms, s, steps).calls <==> h in s.calls || Enter(h) in steps
    ensures Next(ms, s, Enter(h)) == if h in s.calls then s else s.(calls := s.calls[h := Waiting])
    ensures h in s.calls ==> Next(ms, s, Die(h)) == s.(calls := s.calls[h := Dead])
    decreases |steps|
  {
    if steps != [] {
      CallsWereMade(ms, Next(ms, s, steps[0]), steps[1..], h);
      assert steps == [steps[0]] + steps[1..];
    }
  }
}
