/** Deadlines and the bounded retry loop, over a clock that any call may advance. */
module Retry {
  import opened Wrappers

  type Body(==, !new)

  /** `total` is the only one of a budget's bounds that the loop uses. */
  datatype Response = Response(status: int, retryAfter: Option<real>, body: Body)

  datatype Outcome = Answered(response: Response) | TransportFailed

  datatype Decision = Decline | Repeat(delay: real)

  datatype Error = InvalidResponse | Exhausted(phase: Phase)

  datatype Phase = Dispatch | RetryWait

  /** How a run ends. */
  datatype Ending = Returned(response: Response) | RaisedFailure | Raised(error: Error)

  const RETRYABLE := {408, 425, 429, 500, 502, 503, 504}

  function Pow2(n: nat): (r: real)
    ensures r >= 1.0
  {
    if n == 0 then 1.0 else 2.0 * Pow2(n - 1)
  }

  function Min(a: real, b: real): real {
    if a < b then a else b
  }

  predicate IsRetryable(o: Outcome) {
    o.TransportFailed? || o.response.status in RETRYABLE
  }

  predicate IsWellFormed(o: Outcome) {
    o.Answered? ==>
      100 <= o.response.status <= 599 && (o.response.retryAfter.Some? ==> o.response.retryAfter.value >= 0.0)
  }

  predicate AsksToWait(o: Outcome) {
    o.Answered? && o.response.retryAfter.Some?
  }

  /** `RetryDecision.for_response`. */
  function Decide(attempt: nat, maxAttempts: nat, o: Outcome, repeatable: bool, total: real): Result<Decision, Error>
    requires 1 <= attempt <= maxAttempts
  {
    if !IsWellFormed(o) then Err(InvalidResponse)
    else if !repeatable || attempt >= maxAttempts || !IsRetryable(o) then Ok(Decline)
    else
      var delay := if AsksToWait(o) then o.response.retryAfter.value else Min(Pow2(attempt - 1), total);
      if delay > total then Ok(Decline) else Ok(Repeat(delay))
  }

  /** A declined outcome is the caller's to see. */
  function Terminal(o: Outcome): Ending {
    if o.Answered? then Returned(o.response) else RaisedFailure
  }

  // ---------------------------------------------------------------- what a verdict means

  /** Outcomes after which another attempt may help: no response at all, or one of these statuses. */
  predicate Retryable(o: Outcome) {
    match o
    case TransportFailed => true
    case Answered(response) =>
      var s := response.status;
      s == 408 || s == 425 || s == 429 || s == 500 || s == 502 || s == 503 || s == 504
  }

  predicate Malformed(o: Outcome) {
    && o.Answered?
    && (o.response.status < 100 || o.response.status > 599
        || (o.response.retryAfter.Some? && o.response.retryAfter.value < 0.0))
  }

  /** The wait after the attempt that `n` others preceded: what the response asks for, else 2^n up to the budget. */
  function DelayAfter(n: nat, o: Outcome, total: real): real {
    if o.Answered? && o.response.retryAfter.Some? then o.response.retryAfter.value
    else if Pow2(n) < total then Pow2(n) else total
  }

  /** Another attempt follows, if its wait fits the deadline. */
  predicate GoesOn(n: nat, o: Outcome, maxAttempts: nat, repeatable: bool, total: real) {
    repeatable && n + 1 < maxAttempts && !Malformed(o) && Retryable(o) && DelayAfter(n, o, total) <= total
  }

  lemma {:induction false} DecideMeans(n: nat, maxAttempts: nat, o: Outcome, repeatable: bool, total: real)
    requires n < maxAttempts
    ensures Decide(n + 1, maxAttempts, o, repeatable, total) ==
              if Malformed(o) then Err(InvalidResponse)
              else if GoesOn(n, o, maxAttempts, repeatable, total) then Ok(Repeat(DelayAfter(n, o, total)))
              else Ok(Decline)
  {
  }

  function Sum(waits: seq<real>): real {
    if waits == [] then 0.0 else Sum(waits[..|waits| - 1]) + waits[|waits| - 1]
  }

  /** The waits before the (n+1)-th attempt when no response asks for its own. */
  function Backoff(total: real, n: nat): real {
    if n == 0 then 0.0 else Backoff(total, n - 1) + Min(Pow2(n - 1), total)
  }

  /** As long as the waits stay inside the budget none of them was clipped. */
  lemma {:induction false} BackoffDoubles(total: real, n: nat)
    requires total > 0.0 && Backoff(total, n) < total
    ensures Backoff(total, n) == Pow2(n) - 1.0
  {
    if n > 0 {
      BackoffIsNatural(total, n - 1);
      BackoffDoubles(total, n - 1);
    }
  }

  lemma {:induction false} BackoffIsNatural(total: real, n: nat)
    requires total > 0.0
    ensures Backoff(total, n) >= 0.0
  {
    if n > 0 {
      BackoffIsNatural(total, n - 1);
    }
  }

  lemma {:induction false} BackoffGrows(total: real, n: nat, m: nat)
    requires total > 0.0 && n <= m
    ensures Backoff(total, n) <= Backoff(total, m)
  {
    if n < m {
      BackoffGrows(total, n, m - 1);
    }
  }

  class Clock {
    var now: real

    constructor () {
      now := 0.0;
    }

    /** Time passes. */
    method Advance(least: real)
      requires least >= 0.0
      modifies this
      ensures now >= old(now) + least
    {
      var more: real := *;
      now := now + least + if more >= 0.0 then more else 0.0;
    }
  }

  class DeadlineMonitor {
    const clock: Clock
    const total: real
    const startedAt: real

    constructor (clock: Clock, total: real)
      requires total > 0.0
      ensures this.clock == clock && this.total == total && startedAt == clock.now
    {
      this.clock, this.total, startedAt := clock, total, clock.now;
    }

    ghost function Elapsed(): real
      reads clock
    {
      clock.now - startedAt
    }

    method Remaining() returns (left: real)
      modifies clock
      ensures left == total - Elapsed() && clock.now >= old(clock.now)
    {
      clock.Advance(0.0);
      left := total - (clock.now - startedAt);
    }

    method AssertDispatchable() returns (error: Option<Error>)
      modifies clock
      ensures clock.now >= old(clock.now)
      ensures error == if Elapsed() < total then None else Some(Exhausted(Dispatch))
    {
      var left := Remaining();
      error := if left <= 0.0 then Some(Exhausted(Dispatch)) else None;
    }

    method CheckWait(delay: real) returns (error: Option<Error>)
      requires delay >= 0.0
      modifies clock
      ensures clock.now >= old(clock.now)
      ensures error == if Elapsed() + delay <= total then None else Some(Exhausted(RetryWait))
    {
      var left := Remaining();
      error := if delay > left then Some(Exhausted(RetryWait)) else None;
    }
  }

  class RetryLoop {
    const total: real            // of the budget the decisions use
    const repeatable: bool       // `idempotency.allows_retry()`
    const deadline: DeadlineMonitor
    const maxAttempts: nat

    // When each attempt was sent and how long each wait was asked to be.
    ghost var sentAt: seq<real>
    ghost var waits: seq<real>

    constructor (total: real, repeatable: bool, deadline: DeadlineMonitor, maxAttempts: nat)
      requires total > 0.0 && deadline.total > 0.0 && maxAttempts >= 1
      ensures this.total == total && this.repeatable == repeatable
      ensures this.deadline == deadline && this.maxAttempts == maxAttempts && sentAt == [] && waits == []
    {
      this.total, this.repeatable, this.deadline, this.maxAttempts := total, repeatable, deadline, maxAttempts;
      sentAt, waits := [], [];
    }

    ghost predicate Valid()
      reads this, deadline, deadline.clock
    {
      && total > 0.0 && deadline.total > 0.0 && maxAttempts >= 1 && deadline.Elapsed() >= 0.0
    }

    /** What is true before each attempt. */
    ghost predicate Between(sends: nat -> Outcome, attempt: nat)
      reads this, deadline, deadline.clock
    {
      && Valid() && |sentAt| == |waits| == attempt - 1 <= maxAttempts
      && SentInside(sentAt, deadline.startedAt, deadline.total)
      && WaitsDecided(sends, waits, maxAttempts, repeatable, total)
      && Sum(waits) <= deadline.Elapsed() && Sum(waits) <= deadline.total
      && (|sentAt| > 0 ==> Sum(waits[..|sentAt| - 1]) < deadline.total)
    }

    /** The attempt is sent, unless the deadline has passed. */
    method Send(sends: nat -> Outcome, attempt: nat) returns (error: Option<Error>)
      requires 1 <= attempt <= maxAttempts && Between(sends, attempt)
      modifies this, deadline.clock
      ensures Ended(sends) && waits == old(waits) && Sum(waits) <= deadline.Elapsed()
      ensures error.Some? ==>
                error == Some(Exhausted(Dispatch)) && sentAt == old(sentAt) && deadline.Elapsed() >= deadline.total
      ensures error.None? ==> |sentAt| == attempt && Sum(waits) < deadline.total
    {
      error := deadline.AssertDispatchable();
      if error.None? {
        sentAt := sentAt + [deadline.clock.now];
        assert waits[..|waits|] == waits;
        deadline.clock.Advance(0.0);
      }
    }

    /** `_settle_attempt`: a verdict, or the delay before the next attempt. */
    method SettleAttempt(sends: nat -> Outcome, attempt: nat) returns (ending: Option<Ending>, delay: real)
      requires Ended(sends) && 1 <= attempt == |sentAt| <= maxAttempts
      modifies deadline.clock
      ensures Ended(sends) && deadline.clock.now >= old(deadline.clock.now) && delay >= 0.0
      ensures ending.None? ==>
                && Decide(attempt, maxAttempts, sends(attempt - 1), repeatable, total) == Ok(Repeat(delay))
                && deadline.Elapsed() + delay <= deadline.total
      ensures ending.Some? ==> Concludes(attempt, sends(attempt - 1), ending.value, maxAttempts, repeatable, total)
      ensures ending == Some(Raised(Exhausted(RetryWait))) ==> WaitDoesNotFit(sends)
      ensures ending.None? ==>
                && GoesOn(attempt - 1, sends(attempt - 1), maxAttempts, repeatable, total)
                && delay == DelayAfter(attempt - 1, sends(attempt - 1), total)
      ensures ending.Some? ==> EndsAfter(attempt, sends(attempt - 1), ending.value, maxAttempts, repeatable, total)
    {
      var o := sends(attempt - 1);
      DecideMeans(attempt - 1, maxAttempts, o, repeatable, total);
      var decision := Decide(attempt, maxAttempts, o, repeatable, total);
      if decision.Err? {
        return Some(Raised(decision.error)), 0.0;
      }
      if decision.value.Decline? {
        return Some(Terminal(o)), 0.0;
      }
      delay := decision.value.delay;
      var error := deadline.CheckWait(delay);
      ending := if error.Some? then Some(Raised(error.value)) else None;
    }

    /** The wait between two attempts. */
    method Wait(sends: nat -> Outcome, attempt: nat, delay: real)
      requires Ended(sends) && |sentAt| == attempt == |waits| + 1 && attempt <= maxAttempts
      requires Decide(attempt, maxAttempts, sends(attempt - 1), repeatable, total) == Ok(Repeat(delay)) && delay >= 0.0
      requires Sum(waits) < deadline.total && Sum(waits) <= deadline.Elapsed()
      requires deadline.Elapsed() + delay <= deadline.total
      modifies this, deadline.clock
      ensures Between(sends, attempt + 1) && waits == old(waits) + [delay]
    {
      waits := waits + [delay];
      assert waits[..|waits| - 1] == old(waits);
      deadline.clock.Advance(delay);
    }

    /** What the last outcome asks to wait does not fit what is left. */
    ghost predicate WaitDoesNotFit(sends: nat -> Outcome)
      reads this, deadline, deadline.clock
    {
      |sentAt| > 0 && deadline.Elapsed() + DelayAfter(|sentAt| - 1, sends(|sentAt| - 1), total) > deadline.total
    }

    /** One turn of the loop. */
    method Attempt(sends: nat -> Outcome, attempt: nat) returns (ending: Option<Ending>)
      requires 1 <= attempt <= maxAttempts && Between(sends, attempt)
      modifies this, deadline.clock
      ensures ending.None? ==> Between(sends, attempt + 1) && attempt < maxAttempts && repeatable
      ensures ending.Some? ==> Ended(sends) && EndsWell(sends, sentAt, waits, ending.value, maxAttempts, repeatable,
                                                        total)
      ensures ending == Some(Raised(Exhausted(Dispatch))) ==> deadline.Elapsed() >= deadline.total
      ensures ending == Some(Raised(Exhausted(RetryWait))) ==> WaitDoesNotFit(sends)
    {
      var error := Send(sends, attempt);
      if error.Some? {
        return Some(Raised(error.value));
      }
      var delay: real;
      ending, delay := SettleAttempt(sends, attempt);
      if ending.None? {
        Wait(sends, attempt, delay);
      }
    }

    ghost predicate Ended(sends: nat -> Outcome)
      reads this, deadline, deadline.clock
    {
      && Valid() && |sentAt| <= maxAttempts && |waits| <= |sentAt| <= |waits| + 1
      && SentInside(sentAt, deadline.startedAt, deadline.total)
      && WaitsDecided(sends, waits, maxAttempts, repeatable, total)
      && Sum(waits) <= deadline.total
      && (|sentAt| > 0 ==> Sum(waits[..|sentAt| - 1]) < deadline.total)
    }

    lemma BackoffFits(sends: nat -> Outcome)
      requires Ended(sends)
      ensures !repeatable ==> waits == []
      ensures |sentAt| > 0 && Unasked(sends, |sentAt| - 1) ==> Backoff(total, |sentAt| - 1) < deadline.total
    {
      SumIsBackoff(sends, waits, if |sentAt| > 0 then |sentAt| - 1 else 0, maxAttempts, repeatable, total);
    }

    /** The decisions and the deadline share one budget, and no wait so far was asked for. */
    ghost predicate OnOneBudget(sends: nat -> Outcome)
      reads this
    {
      total == deadline.total && |sentAt| > 0 && Unasked(sends, |sentAt| - 1)
    }

    /**
     2^(k-1) - 1 fits strictly inside the budget for k attempts, and every wait one of them followed is 2^i,
     unclipped.
     */
    ghost predicate FewAttempts()
      reads this
    {
      && |waits| + 1 >= |sentAt| > 0 && Pow2(|sentAt| - 1) - 1.0 < total
      && forall i | 0 <= i < |sentAt| - 1 :: waits[i] == Pow2(i) < total
    }

    lemma BudgetBoundsAttempts(sends: nat -> Outcome)
      requires Ended(sends)
      ensures OnOneBudget(sends) ==> FewAttempts()
    {
      if OnOneBudget(sends) {
        BackoffFits(sends);
        AttemptsAreLogarithmic(total, |sentAt|);
        forall i | 0 <= i < |sentAt| - 1 ensures waits[i] == Pow2(i) < total {
          assert Decide(i + 1, maxAttempts, sends(i), repeatable, total) == Ok(Repeat(waits[i]));
          if Pow2(i) >= total {
            ClippedWaitIsTheLast(total, i);
            BackoffGrows(total, i + 1, |sentAt| - 1);
          }
        }
      }
    }

    /** The waits and the ending of a run, by what each attempt met. */
    lemma VerdictsMean(sends: nat -> Outcome, ending: Ending)
      requires Ended(sends) && EndsWell(sends, sentAt, waits, ending, maxAttempts, repeatable, total)
      ensures forall i | 0 <= i < |waits| ::
                GoesOn(i, sends(i), maxAttempts, repeatable, total) && waits[i] == DelayAfter(i, sends(i), total)
      ensures if |waits| == |sentAt| then ending == Raised(Exhausted(Dispatch))
              else EndsAfter(|sentAt|, sends(|sentAt| - 1), ending, maxAttempts, repeatable, total)
    {
      forall i | 0 <= i < |waits|
        ensures GoesOn(i, sends(i), maxAttempts, repeatable, total) && waits[i] == DelayAfter(i, sends(i), total)
      {
        assert Decide(i + 1, maxAttempts, sends(i), repeatable, total) == Ok(Repeat(waits[i]));
        DecideMeans(i, maxAttempts, sends(i), repeatable, total);
      }
      if |waits| < |sentAt| {
        DecideMeans(|sentAt| - 1, maxAttempts, sends(|sentAt| - 1), repeatable, total);
      }
    }

    /** `run`: `sends(i)` is what the (i+1)-th attempt meets. */
    method Run(sends: nat -> Outcome) returns (ending: Ending)
      requires Valid() && sentAt == [] && waits == []
      modifies this, deadline.clock
      ensures SentInside(sentAt, deadline.startedAt, deadline.total) && |sentAt| <= maxAttempts
      ensures WaitsDecided(sends, waits, maxAttempts, repeatable, total) && Sum(waits) <= deadline.total
      ensures EndsWell(sends, sentAt, waits, ending, maxAttempts, repeatable, total)
      ensures forall i | 0 <= i < |waits| ::
                GoesOn(i, sends(i), maxAttempts, repeatable, total) && waits[i] == DelayAfter(i, sends(i), total)
      ensures if |waits| == |sentAt| then ending == Raised(Exhausted(Dispatch))
              else EndsAfter(|sentAt|, sends(|sentAt| - 1), ending, maxAttempts, repeatable, total)
      ensures ending == Raised(Exhausted(Dispatch)) ==> deadline.Elapsed() >= deadline.total
      ensures ending == Raised(Exhausted(RetryWait)) ==> WaitDoesNotFit(sends)
      ensures !repeatable ==> |sentAt| <= 1 && waits == []
      ensures |sentAt| > 0 && Unasked(sends, |sentAt| - 1) ==> Backoff(total, |sentAt| - 1) < deadline.total
      ensures OnOneBudget(sends) ==> FewAttempts()
    {
      var attempt := 1;
      while attempt <= maxAttempts
        invariant Between(sends, attempt) && attempt <= maxAttempts
        invariant !repeatable ==> attempt == 1
      {
        var ended := Attempt(sends, attempt);
        if ended.Some? {
          BackoffFits(sends);
          BudgetBoundsAttempts(sends);
          VerdictsMean(sends, ended.value);
          return ended.value;
        }
        attempt := attempt + 1;
      }
      assert false;
      ending := RaisedFailure;
    }
  }

  /** Every attempt was sent strictly inside the deadline. */
  ghost predicate SentInside(sentAt: seq<real>, startedAt: real, total: real) {
    forall i | 0 <= i < |sentAt| :: 0.0 <= sentAt[i] - startedAt < total
  }

  /** The waits are those the decisions asked for. */
  ghost predicate WaitsDecided(sends: nat -> Outcome, waits: seq<real>, maxAttempts: nat, repeatable: bool,
                               total: real) {
    forall i | 0 <= i < |waits| ::
      i + 1 <= maxAttempts && Decide(i + 1, maxAttempts, sends(i), repeatable, total) == Ok(Repeat(waits[i]))
  }

  ghost predicate Unasked(sends: nat -> Outcome, n: nat) {
    forall i | 0 <= i < n :: !AsksToWait(sends(i))
  }

  /** Why a run ended as it did: before an attempt, or by what its last attempt met. */
  predicate EndsWell(sends: nat -> Outcome, sentAt: seq<real>, waits: seq<real>, ending: Ending,
                     maxAttempts: nat, repeatable: bool, total: real) {
    var n := |sentAt|;
    if ending == Raised(Exhausted(Dispatch)) then |waits| == n < maxAttempts
    else 1 <= n == |waits| + 1 <= maxAttempts && Concludes(n, sends(n - 1), ending, maxAttempts, repeatable, total)
  }

  /**
   The n-th attempt was the last: a malformed response raises, an outcome after which the loop goes on means
   that the wait did not fit the deadline, and any other is the caller's to see.
   */
  predicate EndsAfter(n: nat, o: Outcome, ending: Ending, maxAttempts: nat, repeatable: bool, total: real)
  {
    n >= 1 &&
    ending ==
      if Malformed(o) then Raised(InvalidResponse)
      else if GoesOn(n - 1, o, maxAttempts, repeatable, total) then Raised(Exhausted(RetryWait))
      else if o.Answered? then Returned(o.response) else RaisedFailure
  }

  /** The n-th attempt's outcome is declined, malformed, or its wait does not fit the deadline. */
  predicate Concludes(n: nat, o: Outcome, ending: Ending, maxAttempts: nat, repeatable: bool, total: real)
    requires 1 <= n <= maxAttempts
  {
    match Decide(n, maxAttempts, o, repeatable, total)
    case Err(e) => ending == Raised(e)
    case Ok(Decline) => ending == Terminal(o)
    case Ok(Repeat(_)) => ending == Raised(Exhausted(RetryWait))
  }

  /** Waits that nobody asked for are the doubling ones. */
  lemma {:induction false} SumIsBackoff(sends: nat -> Outcome, waits: seq<real>, n: nat,
                                        maxAttempts: nat, repeatable: bool, total: real)
    requires WaitsDecided(sends, waits, maxAttempts, repeatable, total) && n <= |waits|
    ensures Unasked(sends, n) ==> Sum(waits[..n]) == Backoff(total, n)
    ensures !repeatable ==> waits == []
  {
    if waits != [] {
      assert Decide(1, maxAttempts, sends(0), repeatable, total) == Ok(Repeat(waits[0]));
    }
    if n > 0 {
      SumIsBackoff(sends, waits, n - 1, maxAttempts, repeatable, total);
      assert waits[..n][..n - 1] == waits[..n - 1];
      assert Decide(n, maxAttempts, sends(n - 1), repeatable, total) == Ok(Repeat(waits[n - 1]));
    }
  }

  /**
   When the decisions and the deadline share one budget, reaching the k-th attempt without any
   `Retry-After` means that 2^(k-1) - 1 fits strictly inside it, whatever the attempt limit.
   */
  lemma {:induction false} AttemptsAreLogarithmic(total: real, k: nat)
    requires k >= 1 && total > 0.0 && Backoff(total, k - 1) < total
    ensures Pow2(k - 1) - 1.0 < total
  {
    BackoffDoubles(total, k - 1);
  }

  /** A wait clipped to the whole budget is the last: no attempt follows it inside the deadline. */
  lemma {:induction false} ClippedWaitIsTheLast(total: real, n: nat)
    requires total > 0.0 && Pow2(n) >= total
    ensures Backoff(total, n + 1) >= total
  {
    BackoffIsNatural(total, n);
  }
}
