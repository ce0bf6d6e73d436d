/** The token-bucket rate limiter, over exact reals. */
module TokenBucket {
  import opened Wrappers

  const MAX_CAPACITY := 10_000

  datatype Bucket = Bucket(capacity: int, refillPerSecond: real, tokens: real, lastRefillMs: real)

  predicate ValidOptions(capacity: int, refillPerSecond: real) {
    1 <= capacity <= MAX_CAPACITY && refillPerSecond > 0.0
  }

  predicate Valid(b: Bucket) {
    ValidOptions(b.capacity, b.refillPerSecond) && 0.0 <= b.tokens <= b.capacity as real
  }

  function Min(a: real, b: real): real {
    if a <= b then a else b
  }

  /** The tokens that `ms` milliseconds bring. */
  function Gain(ms: real, rate: real): real {
    ms / 1000.0 * rate
  }

  /** A clock that moved backward adds nothing but becomes the new baseline. */
  function Refill(b: Bucket, now: real): Bucket {
    var elapsed := now - b.lastRefillMs;
    if elapsed > 0.0 then
      b.(tokens := Min(b.capacity as real, b.tokens + Gain(elapsed, b.refillPerSecond)), lastRefillMs := now)
    else if elapsed < 0.0 then b.(lastRefillMs := now)
    else b
  }

  /** One admission attempt: a whole tryAcquire, or one round of an acquire. */
  datatype Attempt = Attempt(now: real, cost: int)

  function Admits(b: Bucket, a: Attempt): bool {
    Refill(b, a.now).tokens >= a.cost as real
  }

  function Try(b: Bucket, a: Attempt): Bucket {
    var refilled := Refill(b, a.now);
    if Admits(b, a) then refilled.(tokens := refilled.tokens - a.cost as real) else refilled
  }

  predicate ValidCost(b: Bucket, cost: int) {
    1 <= cost <= b.capacity
  }

  predicate ValidAttempts(b: Bucket, attempts: seq<Attempt>) {
    forall i :: 0 <= i < |attempts| ==> ValidCost(b, attempts[i].cost)
  }

  function Run(b: Bucket, attempts: seq<Attempt>): Bucket
    decreases |attempts|
  {
    if attempts == [] then b else Run(Try(b, attempts[0]), attempts[1..])
  }

  /** The total cost admitted over a run of attempts. */
  function Admitted(b: Bucket, attempts: seq<Attempt>): int
    decreases |attempts|
  {
    if attempts == [] then 0
    else (if Admits(b, attempts[0]) then attempts[0].cost else 0) + Admitted(Try(b, attempts[0]), attempts[1..])
  }

  /** How far the clock moved forward, jumps backward not counted. */
  function ForwardMs(from: real, attempts: seq<Attempt>): real
    decreases |attempts|
  {
    if attempts == [] then 0.0
    else Advance(from, attempts[0].now) + ForwardMs(attempts[0].now, attempts[1..])
  }

  function Advance(from: real, to: real): real {
    if to > from then to - from else 0.0
  }

  // ----- the invariant and the bound -----

  lemma RefillBounds(b: Bucket, now: real)
    requires Valid(b)
    ensures Valid(Refill(b, now)) && Refill(b, now).lastRefillMs == now
    ensures b.tokens <= Refill(b, now).tokens
    ensures Refill(b, now).tokens <= b.tokens + Gain(Advance(b.lastRefillMs, now), b.refillPerSecond)
  {
  }

  lemma GainSign(ms: real, rate: real)
    requires rate > 0.0
    ensures ms >= 0.0 ==> Gain(ms, rate) >= 0.0
    ensures Gain(0.0, rate) == 0.0
  {
  }

  lemma TryKeepsValid(b: Bucket, a: Attempt)
    requires Valid(b) && ValidCost(b, a.cost)
    ensures Valid(Try(b, a)) && Try(b, a).lastRefillMs == a.now
    ensures Try(b, a).capacity == b.capacity && Try(b, a).refillPerSecond == b.refillPerSecond
  {
    RefillBounds(b, a.now);
  }

  /** Tokens stay between 0 and the capacity, and what is admitted is paid for by the tokens at the
      start and what the forward motion of the clock refilled. */
  lemma {:induction false} TokensPayForAdmissions(b: Bucket, attempts: seq<Attempt>)
    requires Valid(b) && ValidAttempts(b, attempts)
    ensures Valid(Run(b, attempts))
    ensures Run(b, attempts).tokens + Admitted(b, attempts) as real
         <= b.tokens + Gain(ForwardMs(b.lastRefillMs, attempts), b.refillPerSecond)
    decreases |attempts|
  {
    GainSign(0.0, b.refillPerSecond);
    hide Gain, Refill;
    if attempts != [] {
      var a, rest := attempts[0], attempts[1..];
      TryKeepsValid(b, a);
      RefillBounds(b, a.now);
      TokensPayForAdmissions(Try(b, a), rest);
      GainAdds(Advance(b.lastRefillMs, a.now), ForwardMs(a.now, rest), b.refillPerSecond);
    }
  }

  lemma GainAdds(x: real, y: real, rate: real)
    ensures Gain(x + y, rate) == Gain(x, rate) + Gain(y, rate)
  {
  }

  /** In any window of attempts, by whomever and interleaved as they may be, the cost admitted is at
      most the capacity plus the refill rate times the forward motion of the clock inside the
      window, whatever happened before and however the clock jumped back. */
  lemma {:induction false} WindowBound(b: Bucket, before: seq<Attempt>, window: seq<Attempt>)
    requires Valid(b) && ValidAttempts(b, before) && ValidAttempts(b, window) && window != []
    ensures Admitted(Run(b, before), window) as real
         <= b.capacity as real + Gain(ForwardMs(window[0].now, window), b.refillPerSecond)
  {
    hide Gain;
    RunKeepsOptions(b, before);
    TokensPayForAdmissions(b, before);
    var b1 := Run(b, before);
    var b2 := Refill(b1, window[0].now);
    RefillBounds(b1, window[0].now);
    assert Admitted(b2, window) == Admitted(b1, window);
    TokensPayForAdmissions(b2, window);
  }

  lemma {:induction false} RunKeepsOptions(b: Bucket, attempts: seq<Attempt>)
    ensures Run(b, attempts).capacity == b.capacity && Run(b, attempts).refillPerSecond == b.refillPerSecond
    decreases |attempts|
  {
    if attempts != [] {
      RunKeepsOptions(Try(b, attempts[0]), attempts[1..]);
    }
  }

  // ----- waiting -----

  function WaitMs(b: Bucket, cost: int): real
    requires b.refillPerSecond > 0.0
  {
    (cost as real - b.tokens) / b.refillPerSecond * 1000.0
  }

  /** The wait is exact: a refused attempt, repeated with no competitor in between, is admitted if and
      only if the clock has moved on by at least the wait. */
  lemma WaitIsExact(b: Bucket, a: Attempt, later: real)
    requires Valid(b) && ValidCost(b, a.cost) && !Admits(b, a) && a.now <= later
    ensures var refused := Try(b, a);
            Admits(refused, Attempt(later, a.cost)) <==> later - a.now >= WaitMs(refused, a.cost)
  {
    TryKeepsValid(b, a);
    var refused := Try(b, a);
    WaitArithmetic(later - a.now, a.cost as real - refused.tokens, b.refillPerSecond);
  }

  lemma WaitArithmetic(elapsed: real, deficit: real, rate: real)
    requires rate > 0.0
    ensures Gain(elapsed, rate) >= deficit <==> elapsed >= deficit / rate * 1000.0
  {
  }

  // ----- acquire -----

  /** One turn of the acquire loop: whether the signal is already aborted, the clock, whether the
      abort wins the race against the sleep, and what others attempt meanwhile. */
  datatype Round = Round(aborted: bool, now: real, abortWins: bool, others: seq<Attempt>)

  datatype Outcome = Granted | AbortedByCaller | Waiting

  /** The acquire loop as far as `rounds` takes it. */
  function AcquireRounds(b: Bucket, cost: int, rounds: seq<Round>): (Bucket, Outcome)
    decreases |rounds|
  {
    if rounds == [] then (b, Waiting)
    else
      var round := rounds[0];
      if round.aborted then (b, AbortedByCaller)
      else if Admits(b, Attempt(round.now, cost)) then (Try(b, Attempt(round.now, cost)), Granted)
      else
        var waited := Run(Try(b, Attempt(round.now, cost)), round.others);
        if round.abortWins then (waited, AbortedByCaller) else AcquireRounds(waited, cost, rounds[1..])
  }

  /** The attempts an acquire amounts to, its own and the others' in the order they happen. */
  function AttemptsOf(b: Bucket, cost: int, rounds: seq<Round>): seq<Attempt>
    decreases |rounds|
  {
    if rounds == [] || rounds[0].aborted then []
    else
      var own := Attempt(rounds[0].now, cost);
      if Admits(b, own) then [own]
      else
        [own] + rounds[0].others +
        (if rounds[0].abortWins then [] else AttemptsOf(Run(Try(b, own), rounds[0].others), cost, rounds[1..]))
  }

  function OthersAdmitted(b: Bucket, cost: int, rounds: seq<Round>): int
    decreases |rounds|
  {
    if rounds == [] || rounds[0].aborted then 0
    else
      var own := Attempt(rounds[0].now, cost);
      if Admits(b, own) then 0
      else
        Admitted(Try(b, own), rounds[0].others) +
        (if rounds[0].abortWins then 0 else OthersAdmitted(Run(Try(b, own), rounds[0].others), cost, rounds[1..]))
  }

  lemma {:induction false} RunConcat(b: Bucket, x: seq<Attempt>, y: seq<Attempt>)
    ensures Run(b, x + y) == Run(Run(b, x), y)
    ensures Admitted(b, x + y) == Admitted(b, x) + Admitted(Run(b, x), y)
    decreases |x|
  {
    if x == [] {
      assert x + y == y;
    } else {
      assert (x + y)[1..] == x[1..] + y;
      RunConcat(Try(b, x[0]), x[1..], y);
    }
  }

  /** An acquire is a run of attempts in which it pays its cost once if granted and nothing if aborted
      or still waiting; so the window bound covers it, however it interleaves with others. */
  lemma {:induction false} AcquirePaysOnceOrNothing(b: Bucket, cost: int, rounds: seq<Round>)
    ensures var (b', outcome) := AcquireRounds(b, cost, rounds);
            && b' == Run(b, AttemptsOf(b, cost, rounds))
            && Admitted(b, AttemptsOf(b, cost, rounds))
               == OthersAdmitted(b, cost, rounds) + (if outcome == Granted then cost else 0)
    decreases |rounds|
  {
    if rounds != [] && !rounds[0].aborted {
      var own := Attempt(rounds[0].now, cost);
      assert Run(b, [own]) == Try(b, own) by {
        assert [own][1..] == [];
      }
      assert Admitted(b, [own]) == if Admits(b, own) then cost else 0;
      if !Admits(b, own) {
        var waited := Run(Try(b, own), rounds[0].others);
        var rest := if rounds[0].abortWins then [] else AttemptsOf(waited, cost, rounds[1..]);
        RunConcat(b, [own], rounds[0].others);
        RunConcat(b, [own] + rounds[0].others, rest);
        AcquirePaysOnceOrNothing(waited, cost, rounds[1..]);
      }
    }
  }

  // ----- the limiter object -----

  class RateLimiter {
    const capacity: int
    const refillPerSecond: real
    var tokens: real
    var lastRefillMs: real

    ghost function Now(): Bucket
      reads this
    {
      Bucket(capacity, refillPerSecond, tokens, lastRefillMs)
    }

    /** A new bucket is full. */
    constructor (capacity: int, refillPerSecond: real, now: real)
      requires ValidOptions(capacity, refillPerSecond)
      ensures Now() == Bucket(capacity, refillPerSecond, capacity as real, now) && Valid(Now())
    {
      this.capacity, this.refillPerSecond := capacity, refillPerSecond;
      tokens, lastRefillMs := capacity as real, now;
    }

    method RefillTo(now: real)
      modifies this
      ensures Now() == Refill(old(Now()), now)
    {
      var elapsed := now - lastRefillMs;
      if elapsed > 0.0 {
        var added := elapsed / 1000.0 * refillPerSecond;
        tokens := Min(capacity as real, tokens + added);
        lastRefillMs := now;
      } else if elapsed < 0.0 {
        lastRefillMs := now;
      }
    }

    /** A cost outside [1, capacity] is refused without touching the bucket; a missing one is 1. */
    method TryAcquire(cost: Option<int>, now: real) returns (r: Result<bool, ()>)
      modifies this
      ensures var c := if cost.Some? then cost.value else 1;
              if !ValidCost(old(Now()), c) then r.Err? && Now() == old(Now())
              else r == Ok(Admits(old(Now()), Attempt(now, c))) && Now() == Try(old(Now()), Attempt(now, c))
    {
      var c := if cost.Some? then cost.value else 1;
      if !(1 <= c <= capacity) {
        return Err(());
      }
      RefillTo(now);
      if tokens >= c as real {
        tokens := tokens - c as real;
        return Ok(true);
      }
      return Ok(false);
    }

    /** Other callers' attempts while this one sleeps. */
    method Others(attempts: seq<Attempt>)
      modifies this
      ensures Now() == Run(old(Now()), attempts)
    {
      var i := 0;
      while i < |attempts|
        invariant 0 <= i <= |attempts|
        invariant Run(Now(), attempts[i..]) == Run(old(Now()), attempts)
      {
        RefillTo(attempts[i].now);
        if tokens >= attempts[i].cost as real {
          tokens := tokens - attempts[i].cost as real;
        }
        assert attempts[i..][1..] == attempts[i + 1..];
        i := i + 1;
      }
    }

    method Acquire(cost: Option<int>, rounds: seq<Round>) returns (r: Result<Outcome, ()>)
      modifies this
      ensures var c := if cost.Some? then cost.value else 1;
              if !ValidCost(old(Now()), c) then r.Err? && Now() == old(Now())
              else r.Ok? && (Now(), r.value) == AcquireRounds(old(Now()), c, rounds)
    {
      var c := if cost.Some? then cost.value else 1;
      if !(1 <= c <= capacity) {
        return Err(());
      }
      var i := 0;
      while i < |rounds|
        invariant 0 <= i <= |rounds|
        invariant AcquireRounds(Now(), c, rounds[i..]) == AcquireRounds(old(Now()), c, rounds)
      {
        assert rounds[i..][1..] == rounds[i + 1..];
        if rounds[i].aborted {
          return Ok(AbortedByCaller);
        }
        RefillTo(rounds[i].now);
        if tokens >= c as real {
          tokens := tokens - c as real;
          return Ok(Granted);
        }
        Others(rounds[i].others);
        if rounds[i].abortWins {
          return Ok(AbortedByCaller);
        }
        i := i + 1;
      }
      return Ok(Waiting);
    }
  }
}
