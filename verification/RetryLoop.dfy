/** The retrying transport: one request, an arbitrary inner transport, arbitrary callbacks. */
module RetryLoop {
  import opened Wrappers

  datatype HttpMethod = GET | POST | PUT | PATCH | DELETE

  datatype RetryPosts = Never | NetworkOnly | Always

  /** GraphNetworkError is told apart from every other error. */
  datatype Error = NetworkError | OtherError

  /** The Retry-After header as read: nothing usable, delta seconds, or a date. */
  datatype RetryAfter = Unusable | Seconds(seconds: real) | Date(ms: real)

  datatype Answer = Response(status: int, retryAfter: RetryAfter) | Threw(error: Error)

  datatype Request = Request(verb: HttpMethod, hasIdempotencyKey: bool)

  /** `custom` policies ask their own retryOn; others use the default for their mode. */
  datatype Policy = Policy(retries: nat, baseDelayMs: real, maxDelayMs: real, retryPosts: RetryPosts,
                           custom: bool, jittered: bool, limited: bool)

  predicate ValidPolicy(p: Policy) {
    0.0 <= p.baseDelayMs <= p.maxDelayMs && p.maxDelayMs >= 1.0
  }

  datatype Verdict = Retry | Stop | Raises(error: Error)

  /** What the surroundings do in one pause before a retry: the custom jitter or the random number,
      the clock, and whether onRetry or the sleep throws. */
  datatype Pause = Pause(jitter: real, random: real, now: real, onRetryThrows: Option<Error>, sleepThrows: Option<Error>)

  /** What the surroundings do in one turn of the loop. `aborted` tells of the signal at each of the
      five points where it is looked at; a custom retryOn answers for a response and for an error. */
  datatype Turn = Turn(abortReason: Error, aborted: seq<bool>, limiterThrows: Option<Error>, answer: Answer,
                       onResponse: Verdict, onError: Verdict, afterResponse: Pause, afterError: Pause)

  predicate AbortedAt(t: Turn, point: nat) {
    point < |t.aborted| && t.aborted[point]
  }

  // ----- the default decision -----

  predicate IsRetryableMethod(m: HttpMethod) {
    m == GET || m == DELETE
  }

  predicate Is5xx(a: Answer) {
    a.Response? && 500 <= a.status < 600
  }

  predicate DefaultRetryOn(mode: RetryPosts, req: Request, a: Answer) {
    if a.Response? && a.status == 429 then true
    else if a.Threw? && a.error == NetworkError then
      if IsRetryableMethod(req.verb) then true
      else if req.verb == POST && mode != Never then req.hasIdempotencyKey
      else false
    else if IsRetryableMethod(req.verb) then Is5xx(a)
    else if req.verb == POST && mode == Always then Is5xx(a)
    else false
  }

  /** Which answers may be followed by a re-send, row by row. */
  predicate MayResend(mode: RetryPosts, req: Request, a: Answer) {
    match a
    case Response(429, _) => true
    case Response(status, _) =>
      500 <= status < 600 && (req.verb == GET || req.verb == DELETE || (req.verb == POST && mode == Always))
    case Threw(NetworkError) =>
      req.verb == GET || req.verb == DELETE || (req.verb == POST && mode != Never && req.hasIdempotencyKey)
    case Threw(OtherError) => false
  }

  /** In mode "never" a POST is re-sent only after a 429, in mode "network-only" also after a network
      error of a request with an idempotency key; PUT and PATCH only after a 429. */
  predicate AfterUnsafe(mode: RetryPosts, req: Request, a: Answer) {
    || (a.Response? && a.status == 429)
    || (a.Response? && req.verb == POST && mode == Always && Is5xx(a))
    || (a.Threw? && req.verb == POST && mode != Never && req.hasIdempotencyKey && a.error == NetworkError)
  }

  lemma ResendsOfUnsafeMethods(mode: RetryPosts, req: Request, a: Answer)
    requires MayResend(mode, req, a) && req.verb != GET && req.verb != DELETE
    ensures AfterUnsafe(mode, req, a)
  {
  }

  lemma DefaultFollowsTheTable(mode: RetryPosts, req: Request, a: Answer)
    ensures DefaultRetryOn(mode, req, a) <==> MayResend(mode, req, a)
  {
  }

  // ----- the delay -----

  function Power2(n: nat): real {
    if n == 0 then 1.0 else 2.0 * Power2(n - 1)
  }

  function Min(a: real, b: real): real {
    if a <= b then a else b
  }

  function RetryAfterMs(h: RetryAfter, now: real): Option<real> {
    match h
    case Unusable => None
    case Seconds(s) => Some(s * 1000.0)
    case Date(ms) => Some(if ms - now >= 0.0 then ms - now else 0.0)
  }

  function Grown(base: real, n: nat): real {
    base * Power2(n)
  }

  function Exponential(p: Policy, attempt: nat): real {
    Min(Grown(p.baseDelayMs, if attempt >= 1 then attempt - 1 else 0), p.maxDelayMs)
  }

  function Scaled(x: real, random: real): real {
    (x * random).Floor as real
  }

  /** A bad jitter or random number throws. */
  function BoundedDelayMs(p: Policy, attempt: nat, h: RetryAfter, pause: Pause): (delay: Option<real>) {
    var after := RetryAfterMs(h, pause.now);
    if after.Some? then Some(Min(after.value, p.maxDelayMs))
    else if p.jittered then (if pause.jitter < 0.0 then None else Some(Min(pause.jitter, p.maxDelayMs)))
    else if pause.random < 0.0 || pause.random > 1.0 then None
    else Some(Scaled(Exponential(p, attempt), pause.random))
  }

  predicate ReadableHeader(h: RetryAfter) {
    h.Seconds? ==> h.seconds >= 0.0
  }

  lemma {:induction false} Power2Positive(n: nat)
    ensures Power2(n) >= 1.0
  {
    if n > 0 {
      Power2Positive(n - 1);
    }
  }

  lemma ProductBounds(x: real, y: real)
    requires 0.0 <= x && 0.0 <= y
    ensures 0.0 <= x * y
    ensures y <= 1.0 ==> x * y <= x
  {
  }

  lemma ScaledBounds(x: real, random: real)
    requires 0.0 <= x && 0.0 <= random <= 1.0
    ensures 0.0 <= Scaled(x, random) <= x
  {
    ProductBounds(x, random);
  }

  lemma ExponentialBounds(p: Policy, attempt: nat)
    requires ValidPolicy(p)
    ensures 0.0 <= Exponential(p, attempt) <= p.maxDelayMs
  {
    var n := if attempt >= 1 then attempt - 1 else 0;
    Power2Positive(n);
    ProductBounds(p.baseDelayMs, Power2(n));
  }

  /** Every delay asked for lies between 0 and the maximum. */
  lemma DelayIsBounded(p: Policy, attempt: nat, h: RetryAfter, pause: Pause)
    requires ValidPolicy(p) && ReadableHeader(h)
    ensures var d := BoundedDelayMs(p, attempt, h, pause); d.Some? ==> 0.0 <= d.value <= p.maxDelayMs
  {
    hide Exponential, Scaled;
    ExponentialBounds(p, attempt);
    if 0.0 <= pause.random <= 1.0 {
      ScaledBounds(Exponential(p, attempt), pause.random);
    }
  }

  // ----- the delay, without its formula -----

  /** What the random number scales: the base at first, twice as much at each further attempt, and never
      more than the maximum. */
  function Ceiling(p: Policy, attempt: nat): real {
    if attempt <= 1 then p.baseDelayMs else Min(2.0 * Ceiling(p, attempt - 1), p.maxDelayMs)
  }

  lemma {:induction false} CeilingIsExponential(p: Policy, attempt: nat)
    requires ValidPolicy(p) && attempt >= 1
    ensures Exponential(p, attempt) == Ceiling(p, attempt)
  {
    hide Exponential, Min;
    if attempt > 1 {
      CeilingIsExponential(p, attempt - 1);
      ExponentialDoubles(p, attempt - 1);
    } else {
      ExponentialStarts(p);
    }
  }

  lemma {:induction false} ExponentialStarts(p: Policy)
    requires ValidPolicy(p)
    ensures Exponential(p, 1) == p.baseDelayMs
  {
    assert Grown(p.baseDelayMs, 0) == p.baseDelayMs * 1.0;
  }

  lemma {:induction false} ExponentialDoubles(p: Policy, attempt: nat)
    requires ValidPolicy(p) && attempt >= 1
    ensures Exponential(p, attempt + 1) == Min(2.0 * Exponential(p, attempt), p.maxDelayMs)
  {
    hide Grown;
    GrownDoubles(p.baseDelayMs, attempt - 1);
  }

  lemma {:induction false} GrownDoubles(base: real, n: nat)
    ensures Grown(base, n + 1) == 2.0 * Grown(base, n)
  {
    var power := Power2(n);
    assert Power2(n + 1) == 2.0 * power;
    assert base * (2.0 * power) == 2.0 * (base * power);
  }

  lemma FloorBounds(x: real, random: real)
    ensures var d := Scaled(x, random); d.Floor as real == d && d <= x * random < d + 1.0
  {
  }

  /** Every delay exactly: a usable header or a custom jitter gives it, cut off at the maximum; otherwise it
      is the ceiling times the random number, rounded down. */
  lemma {:induction false} DelayExactly(p: Policy, attempt: nat, h: RetryAfter, pause: Pause)
    requires ValidPolicy(p) && attempt >= 1
    ensures var d := BoundedDelayMs(p, attempt, h, pause);
            match h
            case Seconds(s) => d == Some(if s * 1000.0 < p.maxDelayMs then s * 1000.0 else p.maxDelayMs)
            case Date(ms) =>
              d == Some(if ms <= pause.now then 0.0 else if ms - pause.now < p.maxDelayMs then ms - pause.now else p.maxDelayMs)
            case Unusable =>
              if p.jittered then
                d == if pause.jitter < 0.0 then None else Some(if pause.jitter < p.maxDelayMs then pause.jitter else p.maxDelayMs)
              else
                && (d.Some? <==> 0.0 <= pause.random <= 1.0)
                && (d.Some? ==> d.value.Floor as real == d.value && d.value <= Ceiling(p, attempt) * pause.random < d.value + 1.0)
  {
    hide Exponential, Ceiling, Scaled;
    CeilingIsExponential(p, attempt);
    FloorBounds(Ceiling(p, attempt), pause.random);
  }

  // ----- the loop -----

  datatype Final = Returns(answer: Answer) | Throws(error: Error)

  function Decide(p: Policy, req: Request, a: Answer, custom: Verdict): Verdict {
    if p.custom then custom
    else if DefaultRetryOn(p.retryPosts, req, a) then Retry else Stop
  }

  /** The pause before a retry: the error that ends it early, if any, and the delay it slept. */
  method PauseBeforeRetry(p: Policy, attempt: nat, h: RetryAfter, pause: Pause)
    returns (thrown: Option<Error>, slept: seq<real>)
    requires ValidPolicy(p) && ReadableHeader(h)
    ensures |slept| <= 1 && forall d :: d in slept ==> 0.0 <= d <= p.maxDelayMs
    ensures thrown.None? <==> BoundedDelayMs(p, attempt, h, pause).Some? && pause.onRetryThrows.None? && pause.sleepThrows.None?
    ensures thrown.None? ==> slept == [BoundedDelayMs(p, attempt, h, pause).value]
    ensures thrown.Some? ==> thrown in {Some(OtherError), pause.onRetryThrows, pause.sleepThrows}
  {
    DelayIsBounded(p, attempt, h, pause);
    slept := [];
    var delay := BoundedDelayMs(p, attempt, h, pause);
    if delay.None? {
      return Some(OtherError), slept;
    }
    if pause.onRetryThrows.Some? {
      return pause.onRetryThrows, slept;
    }
    slept := [delay.value];
    thrown := pause.sleepThrows;
  }

  /** Nothing around the loop interferes: no abort, no throwing callback, no bad random number. */
  ghost predicate Calm(p: Policy, env: nat -> Turn) {
    !p.custom && forall n :: CalmTurn(env(n))
  }

  ghost predicate CalmTurn(t: Turn) {
    (forall point :: !AbortedAt(t, point)) && t.limiterThrows.None? && CalmPause(t.afterResponse) && CalmPause(t.afterError)
  }

  predicate CalmPause(pause: Pause) {
    pause.onRetryThrows.None? && pause.sleepThrows.None? && 0.0 <= pause.jitter && 0.0 <= pause.random <= 1.0
  }

  /** The approval a re-send after the n-th answer needs: a true retryOn for that attempt. */
  ghost predicate Approved(p: Policy, req: Request, t: Turn) {
    if p.custom then (t.answer.Response? && t.onResponse == Retry) || t.onError == Retry
    else MayResend(p.retryPosts, req, t.answer)
  }

  /** The try block after the inner request has answered or thrown: return the response, throw into
      the catch block, or go round again after a pause. */
  method AfterAnswer(p: Policy, req: Request, t: Turn, attempt: nat)
    returns (returned: bool, thrown: Option<Error>, slept: seq<real>)
    requires ValidPolicy(p) && (t.answer.Response? ==> ReadableHeader(t.answer.retryAfter))
    ensures |slept| <= 1 && forall d :: d in slept ==> 0.0 <= d <= p.maxDelayMs
    ensures t.answer.Threw? ==> !returned && thrown == Some(t.answer.error) && slept == []
    ensures t.answer.Response? ==>
      var verdict := Decide(p, req, t.answer, t.onResponse);
      && (verdict.Raises? ==> thrown == Some(verdict.error) && slept == [])
      && (returned <==> !verdict.Raises? && (verdict == Stop || attempt > p.retries))
      && (returned ==> slept == [])
      && (!returned && thrown.None? ==>
            verdict == Retry && attempt <= p.retries && BoundedDelayMs(p, attempt, t.answer.retryAfter, t.afterResponse).Some?
            && slept == [BoundedDelayMs(p, attempt, t.answer.retryAfter, t.afterResponse).value])
      && (verdict == Retry && attempt <= p.retries && !AbortedAt(t, 2) && CalmPause(t.afterResponse) ==> thrown.None?)
      && (verdict == Retry && attempt <= p.retries && AbortedAt(t, 2) ==> thrown == Some(t.abortReason) && slept == [])
  {
    returned, thrown, slept := false, None, [];
    if t.answer.Threw? {
      thrown := Some(t.answer.error);
      return;
    }
    var verdict := Decide(p, req, t.answer, t.onResponse);
    if verdict.Raises? {
      thrown := Some(verdict.error);
    } else if verdict == Stop || attempt > p.retries {
      returned := true;
    } else if AbortedAt(t, 2) {
      thrown := Some(t.abortReason);
    } else {
      thrown, slept := PauseBeforeRetry(p, attempt, t.answer.retryAfter, t.afterResponse);
    }
  }

  /** The catch block: `end` is the error that leaves the loop, if any. */
  method AfterThrow(p: Policy, req: Request, t: Turn, attempt: nat, thrown: Error)
    returns (end: Option<Error>, slept: seq<real>)
    requires ValidPolicy(p)
    ensures |slept| <= 1 && forall d :: d in slept ==> 0.0 <= d <= p.maxDelayMs
    ensures end.None? ==>
      && Decide(p, req, Threw(thrown), t.onError) == Retry && attempt <= p.retries
      && BoundedDelayMs(p, attempt, Unusable, t.afterError).Some?
      && slept == [BoundedDelayMs(p, attempt, Unusable, t.afterError).value]
    ensures AbortedAt(t, 3) ==> end == Some(thrown) && slept == []
    ensures AbortedAt(t, 4) ==> end.Some? && slept == []
    ensures !AbortedAt(t, 3) && AbortedAt(t, 4) && Decide(p, req, Threw(thrown), t.onError) == Retry && attempt <= p.retries ==>
              end == Some(t.abortReason) && slept == []
    ensures !AbortedAt(t, 3) && !AbortedAt(t, 4) && !p.custom && CalmPause(t.afterError) ==>
      (if MayResend(p.retryPosts, req, Threw(thrown)) && attempt <= p.retries then end.None?
       else end == Some(thrown) && slept == [])
  {
    slept := [];
    DefaultFollowsTheTable(p.retryPosts, req, Threw(thrown));
    if AbortedAt(t, 3) {
      return Some(thrown), slept;
    }
    var verdict := Decide(p, req, Threw(thrown), t.onError);
    if verdict.Raises? {
      return Some(verdict.error), slept;
    }
    if verdict == Stop || attempt > p.retries {
      return Some(thrown), slept;
    }
    if AbortedAt(t, 4) {
      return Some(t.abortReason), slept;
    }
    end, slept := PauseBeforeRetry(p, attempt, Unusable, t.afterError);
  }

  /** The delay after an answer that is retried without incident. */
  function DelayAfter(p: Policy, attempt: nat, t: Turn): Option<real> {
    if t.answer.Response? then BoundedDelayMs(p, attempt, t.answer.retryAfter, t.afterResponse)
    else BoundedDelayMs(p, attempt, Unusable, t.afterError)
  }

  /** One turn of the loop, the `attempt`-th: whether the inner transport was called, what was slept,
      and how the request ended, if it did. */
  method OneTurn(p: Policy, req: Request, t: Turn, attempt: nat)
    returns (called: bool, slept: seq<real>, end: Option<Final>)
    requires ValidPolicy(p) && (t.answer.Response? ==> ReadableHeader(t.answer.retryAfter))
    ensures forall d :: d in slept ==> 0.0 <= d <= p.maxDelayMs
    ensures !called ==> slept == [] && end.Some? && end.value.Throws?
    ensures end.None? ==> attempt <= p.retries && Approved(p, req, t)
    ensures end.Some? && end.value.Returns? ==> called && end.value.answer == t.answer && t.answer.Response?
    ensures called <==> !AbortedAt(t, 0) && !(p.limited && t.limiterThrows.Some?) && !AbortedAt(t, 1)
    ensures !called ==> end == Some(Throws(if AbortedAt(t, 0) || !p.limited || t.limiterThrows.None? then t.abortReason
                                           else t.limiterThrows.value))
    ensures called && t.answer.Threw? && AbortedAt(t, 3) ==> slept == [] && end == Some(Throws(t.answer.error))
    ensures called && t.answer.Threw? && !AbortedAt(t, 3) && AbortedAt(t, 4) ==> slept == [] && end.Some? && end.value.Throws?
    ensures called && t.answer.Response? && AbortedAt(t, 2) && AbortedAt(t, 3) ==>
              var verdict := Decide(p, req, t.answer, t.onResponse);
              slept == [] && end == Some(if verdict.Raises? then Throws(verdict.error)
                                         else if verdict == Retry && attempt <= p.retries then Throws(t.abortReason)
                                         else Returns(t.answer))
    ensures !p.custom && CalmTurn(t) ==>
      called &&
      if MayResend(p.retryPosts, req, t.answer) && attempt <= p.retries
      then end.None? && |slept| == 1 && Some(slept[0]) == DelayAfter(p, attempt, t)
      else slept == [] && end == Some(if t.answer.Response? then Returns(t.answer) else Throws(t.answer.error))
  {
    hide BoundedDelayMs, DefaultRetryOn, MayResend;
    called, slept, end := false, [], None;
    if AbortedAt(t, 0) { return called, slept, Some(Throws(t.abortReason)); }
    if p.limited && t.limiterThrows.Some? { return called, slept, Some(Throws(t.limiterThrows.value)); }
    if AbortedAt(t, 1) { return called, slept, Some(Throws(t.abortReason)); }
    called := true;
    DefaultFollowsTheTable(p.retryPosts, req, t.answer);

    var returned, thrown, first := AfterAnswer(p, req, t, attempt);
    slept := first;
    if returned { return called, slept, Some(Returns(t.answer)); }
    if thrown.Some? {
      var error, second := AfterThrow(p, req, t, attempt, thrown.value);
      slept := slept + second;
      if error.Some? { return called, slept, Some(Throws(error.value)); }
    }
  }

  /** What the default policy allows before a re-send of a method that is not safe to repeat, at every
      re-send of a request. */
  lemma ResendsAlongTheCalls(p: Policy, req: Request, env: nat -> Turn, calls: seq<Answer>)
    requires forall n :: 0 <= n < |calls| ==> calls[n] == env(n).answer
    requires forall n :: 0 <= n < |calls| - 1 ==> Approved(p, req, env(n))
    ensures !p.custom && OnlyAfter429(p.retryPosts, req) ==>
              forall n :: 0 <= n < |calls| - 1 ==> calls[n].Response? && calls[n].status == 429
    ensures !p.custom && req.verb == POST && p.retryPosts == NetworkOnly ==>
              forall n :: 0 <= n < |calls| - 1 ==>
                (calls[n].Response? && calls[n].status == 429) ||
                (calls[n].Threw? && calls[n].error == NetworkError && req.hasIdempotencyKey)
  {
    hide MayResend;
    if !p.custom && req.verb != GET && req.verb != DELETE {
      forall n | 0 <= n < |calls| - 1 ensures AfterUnsafe(p.retryPosts, req, calls[n]) {
        assert Approved(p, req, env(n));
        ResendsOfUnsafeMethods(p.retryPosts, req, calls[n]);
      }
    }
  }

  /** Methods and modes for which a 429 is the only answer that permits a re-send. */
  predicate OnlyAfter429(mode: RetryPosts, req: Request) {
    req.verb == PUT || req.verb == PATCH || (req.verb == POST && mode == Never)
  }

  /** `calls` are the answers of the inner transport in order, `delays` the delays handed to sleep. */
  method RequestWithRetries(p: Policy, req: Request, env: nat -> Turn)
    returns (calls: seq<Answer>, delays: seq<real>, final: Final)
    requires ValidPolicy(p)
    requires forall n :: env(n).answer.Response? ==> ReadableHeader(env(n).answer.retryAfter)
    ensures |calls| <= p.retries + 1
    ensures forall d :: d in delays ==> 0.0 <= d <= p.maxDelayMs
    ensures forall n :: 0 <= n < |calls| ==> calls[n] == env(n).answer
    ensures forall n :: 0 <= n < |calls| - 1 ==> Approved(p, req, env(n))
    ensures (!p.custom && OnlyAfter429(p.retryPosts, req) ==>
              forall n :: 0 <= n < |calls| - 1 ==> calls[n].Response? && calls[n].status == 429)
    ensures (!p.custom && req.verb == POST && p.retryPosts == NetworkOnly ==>
              forall n :: 0 <= n < |calls| - 1 ==>
                (calls[n].Response? && calls[n].status == 429) ||
                (calls[n].Threw? && calls[n].error == NetworkError && req.hasIdempotencyKey))
    ensures forall n: nat :: AbortedAt(env(n), 0) || AbortedAt(env(n), 1) ==> |calls| <= n
    ensures AbortedAt(env(0), 0) ==> final == Throws(env(0).abortReason)
    ensures final.Returns? ==> calls != [] && final.answer == calls[|calls| - 1] && final.answer.Response?
    ensures Calm(p, env) ==>
      && calls != []
      && (|calls| == p.retries + 1 || !MayResend(p.retryPosts, req, calls[|calls| - 1]))
      && |delays| == |calls| - 1
      && (forall n :: 0 <= n < |delays| ==> Some(delays[n]) == DelayAfter(p, n + 1, env(n)))
      && final == (var last := calls[|calls| - 1]; if last.Response? then Returns(last) else Throws(last.error))
  {
    hide BoundedDelayMs, DefaultRetryOn, MayResend, OnlyAfter429, Approved, AbortedAt, CalmTurn;
    calls, delays := [], [];
    var attempt: nat := 0;
    while true
      invariant |calls| == attempt <= p.retries
      invariant forall d :: d in delays ==> 0.0 <= d <= p.maxDelayMs
      invariant forall n :: 0 <= n < |calls| ==> calls[n] == env(n).answer && Approved(p, req, env(n))
      invariant forall n :: 0 <= n < |calls| ==> !AbortedAt(env(n), 0) && !AbortedAt(env(n), 1)
      invariant Calm(p, env) ==> |delays| == attempt
      invariant Calm(p, env) ==> forall n :: 0 <= n < |delays| ==> Some(delays[n]) == DelayAfter(p, n + 1, env(n))
      decreases p.retries - attempt
    {
      attempt := attempt + 1;
      var called, slept, end := OneTurn(p, req, env(attempt - 1), attempt);
      delays := delays + slept;
      if called { calls := calls + [env(attempt - 1).answer]; }
      if end.Some? {
        final := end.value;
        break;
      }
    }
    ResendsAlongTheCalls(p, req, env, calls);
  }
}
