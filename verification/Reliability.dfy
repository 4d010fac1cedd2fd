/**
 * Outbound calls: a retry loop with exponential backoff inside a circuit breaker whose state is
 * updated lazily, even by reading it. The GitHub client nests the two around one shared breaker.
 */
module Reliability {
  import opened Common

  // ---------- Retry ----------

  /** One attempt: it returns, raises an exception that is retried, or raises one that is not. */
  datatype Attempt = Success | Retryable | Fatal

  /** `NoAttempt` is the failed assertion after a loop that never ran. */
  datatype RetryResult = Returned | RaisedLast | RaisedFatal | NoAttempt

  function Power2(n: nat): nat {
    if n == 0 then 1 else 2 * Power2(n - 1)
  }

  function Delay(base: real, maxDelay: real, attempt: nat): real {
    Min(Backoff(base, attempt), maxDelay)
  }

  function Backoff(base: real, attempt: nat): real {
    base * Power2(attempt) as real
  }

  /** Time slept after the first `n` failed attempts. */
  function Slept(base: real, maxDelay: real, n: nat): real {
    if n == 0 then 0.0 else Slept(base, maxDelay, n - 1) + Delay(base, maxDelay, n - 1)
  }

  /** How a run of at most `maxAttempts` attempts ends, and how many it makes. */
  ghost predicate RetryEnds(outcomes: nat -> Attempt, maxAttempts: int, result: RetryResult, attempts: nat) {
    && attempts <= (if maxAttempts < 0 then 0 else maxAttempts)
    && (forall k: nat | k + 1 < attempts :: outcomes(k) == Retryable)
    && match result
       case NoAttempt => maxAttempts <= 0
       case Returned => attempts > 0 && outcomes(attempts - 1) == Success
       case RaisedFatal => attempts > 0 && outcomes(attempts - 1) == Fatal
       case RaisedLast => attempts > 0 && outcomes(attempts - 1) == Retryable && attempts == maxAttempts
  }

  /** The outcomes of the attempts determine the result and the number of attempts. */
  lemma {:induction false} RetryIsDetermined(outcomes: nat -> Attempt, maxAttempts: int,
                                             r: RetryResult, m: nat, s: RetryResult, n: nat)
    requires RetryEnds(outcomes, maxAttempts, r, m) && RetryEnds(outcomes, maxAttempts, s, n)
    ensures r == s && m == n
  {
  }

  method RetryCall(outcomes: nat -> Attempt, maxAttempts: int, base: real, maxDelay: real)
    returns (result: RetryResult, attempts: nat, slept: real)
    requires base >= 0.0 && maxDelay >= 0.0
    ensures RetryEnds(outcomes, maxAttempts, result, attempts)
    ensures slept == Slept(base, maxDelay, if attempts == 0 then 0 else attempts - 1)
  {
    attempts, slept := 0, 0.0;
    while attempts < maxAttempts
      invariant attempts <= (if maxAttempts < 0 then 0 else maxAttempts)
      invariant forall k: nat | k < attempts :: outcomes(k) == Retryable
      invariant slept == Slept(base, maxDelay,
                               if attempts == 0 || attempts < maxAttempts then attempts else attempts - 1)
    {
      var outcome := outcomes(attempts);
      attempts := attempts + 1;
      if outcome == Success {
        return Returned, attempts, slept;
      }
      if outcome == Fatal {
        return RaisedFatal, attempts, slept;
      }
      if attempts < maxAttempts {
        slept := slept + Min(Backoff(base, attempts - 1), maxDelay);
      }
    }
    result := if attempts == 0 then NoAttempt else RaisedLast;
  }

  /** What `n` doubling delays add up to. */
  function Doubled(base: real, n: nat): real {
    base * (Power2(n) as real - 1.0)
  }

  /** Backoff never sleeps longer than either of its two parameters allows. */
  lemma {:induction false} SleepBound(base: real, maxDelay: real, n: nat)
    requires base >= 0.0 && maxDelay >= 0.0
    ensures 0.0 <= Slept(base, maxDelay, n) <= n as real * maxDelay
    ensures Slept(base, maxDelay, n) <= base * (Power2(n) as real - 1.0)
  {
    hide Slept, Power2;
    SleepSums(base, maxDelay, n);
    TimesIsProduct(n, maxDelay);
  }

  lemma {:induction false} SleepSums(base: real, maxDelay: real, n: nat)
    requires base >= 0.0 && maxDelay >= 0.0
    ensures 0.0 <= Slept(base, maxDelay, n) <= Times(n, maxDelay)
    ensures Slept(base, maxDelay, n) <= Doubled(base, n)
  {
    hide Backoff, Doubled;
    if n == 0 {
      NothingDoubled(base);
    } else {
      SleepSums(base, maxDelay, n - 1);
      Doubling(base, n - 1);
    }
  }

  lemma {:induction false} NothingDoubled(base: real)
    ensures Doubled(base, 0) == 0.0
  {
  }

  lemma {:induction false} Doubling(base: real, n: nat)
    requires base >= 0.0
    ensures Backoff(base, n) >= 0.0
    ensures Doubled(base, n + 1) == Doubled(base, n) + Backoff(base, n)
  {
    var p := Power2(n) as real;
    assert Power2(n + 1) as real - 1.0 == (p - 1.0) + p;
    assert base * ((p - 1.0) + p) == base * (p - 1.0) + base * p;
    assert base * p >= 0.0;
  }

  /** The delays double from the base delay until they reach the maximum, and stay there. */
  lemma {:induction false} DelaysDouble(base: real, maxDelay: real, k: nat)
    requires base >= 0.0 && maxDelay >= 0.0
    ensures Delay(base, maxDelay, 0) == if base <= maxDelay then base else maxDelay
    ensures var d := Delay(base, maxDelay, k);
            Delay(base, maxDelay, k + 1) == if 2.0 * d <= maxDelay then 2.0 * d else maxDelay
  {
    assert base * 1.0 == base;
    assert Power2(k + 1) as real == 2.0 * Power2(k) as real;
    assert base * (2.0 * Power2(k) as real) == 2.0 * (base * Power2(k) as real);
    assert base * Power2(k) as real >= 0.0;
  }

  /** As long as a delay stays within the maximum, all before it do. */
  lemma {:induction false} EarlierDelaysFit(base: real, maxDelay: real, m: nat)
    requires base >= 0.0 && Backoff(base, m) <= maxDelay
    ensures forall k: nat | k <= m :: Backoff(base, k) <= maxDelay
  {
    if m > 0 {
      Doubling(base, m - 1);
      assert Backoff(base, m) == Backoff(base, m - 1) + Backoff(base, m - 1) by { DoubledBackoff(base, m - 1); }
      EarlierDelaysFit(base, maxDelay, m - 1);
    }
  }

  lemma {:induction false} DoubledBackoff(base: real, n: nat)
    ensures Backoff(base, n + 1) == Backoff(base, n) + Backoff(base, n)
  {
    assert Power2(n + 1) as real == Power2(n) as real + Power2(n) as real;
    var p := Power2(n) as real;
    assert base * (p + p) == base * p + base * p;
  }

  lemma {:induction false} LaterDelaysExceed(base: real, maxDelay: real, m: nat, k: nat)
    requires base >= 0.0 && m <= k && Backoff(base, m) >= maxDelay
    ensures Backoff(base, k) >= maxDelay
  {
    if m < k {
      LaterDelaysExceed(base, maxDelay, m, k - 1);
      DoubledBackoff(base, k - 1);
      Doubling(base, k - 1);
    }
  }

  /** The exact time slept: `m` doubling delays within the maximum, and then the maximum each time. */
  lemma {:induction false} SleepIsExact(base: real, maxDelay: real, m: nat, n: nat)
    requires base >= 0.0 && m <= n
    requires m > 0 ==> Backoff(base, m - 1) <= maxDelay
    requires m < n ==> Backoff(base, m) >= maxDelay
    ensures Slept(base, maxDelay, n) == base * (Power2(m) as real - 1.0) + (n - m) as real * maxDelay
  {
    hide Backoff, Power2, Doubled;
    if m < n {
      if m + 1 < n {
        LaterDelaysExceed(base, maxDelay, m, m);
      }
      SleepIsExact(base, maxDelay, m, n - 1);
      LaterDelaysExceed(base, maxDelay, m, n - 1);
      OneMaximumMore(maxDelay, n - m);
    } else {
      OnlyDoubling(base, maxDelay, m);
      DoubledMeans(base, m);
      assert (n - m) as real * maxDelay == 0.0;
    }
  }

  lemma {:induction false} DoubledMeans(base: real, m: nat)
    ensures Doubled(base, m) == base * (Power2(m) as real - 1.0)
  {
  }

  lemma {:induction false} OneMaximumMore(maxDelay: real, k: nat)
    requires k > 0
    ensures k as real * maxDelay == (k - 1) as real * maxDelay + maxDelay
  {
    assert k as real == (k - 1) as real + 1.0;
  }

  lemma {:induction false} OnlyDoubling(base: real, maxDelay: real, m: nat)
    requires base >= 0.0 && (m > 0 ==> Backoff(base, m - 1) <= maxDelay)
    ensures Slept(base, maxDelay, m) == Doubled(base, m)
  {
    hide Backoff, Doubled, Power2;
    if m == 0 {
      NothingDoubled(base);
    } else {
      EarlierDelaysFit(base, maxDelay, m - 1);
      OnlyDoubling(base, maxDelay, m - 1);
      Doubling(base, m - 1);
    }
  }

  // ---------- The breaker as a function of what happened ----------

  datatype Mode = Closed | Open | HalfOpen

  datatype Config = Config(threshold: int, timeout: real) {
    /** A threshold below one trips at the first failure all the same. */
    function Trip(): nat
      ensures Trip() >= 1
    {
      if threshold < 1 then 1 else threshold
    }
  }

  datatype Event = Succeeded | Failed(at: real) | Reset

  /** Failures since the last success or reset. */
  function Fails(history: seq<Event>): nat {
    if history == [] || !history[|history| - 1].Failed? then 0
    else Fails(history[..|history| - 1]) + 1
  }

  function LastFailure(history: seq<Event>): real {
    if history != [] && history[|history| - 1].Failed? then history[|history| - 1].at else 0.0
  }

  /** The mode at time `now`: a function of the history alone, whenever the breaker was last looked at. */
  function ModeAt(c: Config, history: seq<Event>, now: real): Mode {
    if Fails(history) < c.Trip() then Closed
    else if now - LastFailure(history) >= c.timeout then HalfOpen
    else Open
  }

  /** The last `n` events are failures, and no more: what came before them is a success, a reset, or nothing. */
  ghost predicate EndsInFailures(history: seq<Event>, n: nat) {
    && n <= |history|
    && (forall k | |history| - n <= k < |history| :: history[k].Failed?)
    && (n < |history| ==> !history[|history| - n - 1].Failed?)
  }

  lemma {:induction false} FailsMeans(history: seq<Event>)
    ensures EndsInFailures(history, Fails(history))
  {
    if history != [] && history[|history| - 1].Failed? {
      var before := history[..|history| - 1];
      FailsMeans(before);
      assert forall k | 0 <= k < |before| :: before[k] == history[k];
    }
  }

  /**
   * The mode in plain terms: closed while fewer failures than the threshold (and in any case none) have
   * come since the last success or reset; then open until the timeout after the last of them, and half-open
   * from then on.
   */
  lemma {:induction false} ModeMeans(c: Config, history: seq<Event>, n: nat, now: real)
    requires EndsInFailures(history, n)
    ensures ModeAt(c, history, now) == Closed <==> n == 0 || n < c.threshold
    ensures n > 0 && n >= c.threshold ==>
              && history != [] && history[|history| - 1].Failed?
              && (ModeAt(c, history, now) == HalfOpen <==> now - history[|history| - 1].at >= c.timeout)
  {
    FailsMeans(history);
    assert n > 0 ==> history[|history| - 1].Failed?;
    hide Fails, EndsInFailures;
    if n < Fails(history) {
      EndsOnce(history, n, Fails(history));
    } else if Fails(history) < n {
      EndsOnce(history, Fails(history), n);
    }
  }

  lemma {:induction false} EndsOnce(history: seq<Event>, m: nat, n: nat)
    requires m < n && EndsInFailures(history, n)
    ensures !EndsInFailures(history, m)
  {
    assert history[|history| - m - 1].Failed?;
  }

  /** The breaker's own fields. What each method does to them, calls overlapping or not. */
  datatype Fields = Fields(mode: Mode, failures: int, last: real)

  function StateRead(c: Config, f: Fields, now: real): Fields {
    if f.mode == Open && now - f.last >= c.timeout then f.(mode := HalfOpen) else f
  }

  function AfterSuccess(f: Fields): Fields {
    Fields(if f.mode == HalfOpen then Closed else f.mode, 0, f.last)
  }

  function AfterFailing(c: Config, f: Fields, now: real): Fields {
    Fields(if f.mode == HalfOpen || f.failures + 1 >= c.threshold then Open else f.mode, f.failures + 1, now)
  }

  function AfterReset(f: Fields): Fields {
    Fields(Closed, 0, f.last)
  }

  /** One client call at a time: `Valid` says that the fields are those of the history. */
  class CircuitBreaker {
    const config: Config
    var state: Mode
    var failures: int
    var lastFailureTime: real
    ghost var history: seq<Event>
    /** The latest clock reading. */
    ghost var clock: real

    ghost predicate Valid()
      reads this
    {
      && failures == Fails(history)
      && (failures > 0 ==> lastFailureTime == LastFailure(history))
      && (failures < config.Trip() <==> state == Closed)
      && (state == HalfOpen ==> clock - lastFailureTime >= config.timeout)
    }

    constructor (config: Config, now: real)
      ensures Valid() && history == [] && clock == now && this.config == config
    {
      this.config := config;
      state, failures, lastFailureTime := Closed, 0, 0.0;
      history, clock := [], now;
    }

    ghost function View(): Fields
      reads this
    {
      Fields(state, failures, lastFailureTime)
    }

    /** Reading the state may change it, from open to half-open. */
    method State(now: real) returns (mode: Mode)
      modifies this`state, this`clock
      ensures clock == now && mode == state
      ensures View() == StateRead(config, old(View()), now)
      ensures old(Valid()) && old(clock) <= now ==> Valid() && mode == ModeAt(config, history, now)
    {
      if state == Open {
        if now - lastFailureTime >= config.timeout {
          state := HalfOpen;
        }
      }
      clock := now;
      return state;
    }

    method OnSuccess()
      modifies this
      ensures clock == old(clock) && history == old(history) + [Succeeded]
      ensures View() == AfterSuccess(old(View()))
      ensures old(Valid()) && old(state) != Open ==> Valid()
    {
      if state == HalfOpen {
        state := Closed;
      }
      failures := 0;
      history := history + [Succeeded];
    }

    method OnFailure(now: real)
      modifies this
      ensures clock == now && history == old(history) + [Failed(now)]
      ensures View() == AfterFailing(config, old(View()), now)
      ensures old(Valid()) && old(state) != Open ==> Valid()
    {
      failures := failures + 1;
      lastFailureTime := now;
      if state == HalfOpen {
        state := Open;
      } else if failures >= config.threshold {
        state := Open;
      }
      assert (history + [Failed(now)])[..|history|] == history;
      history := history + [Failed(now)];
      clock := now;
    }

    method Reset()
      modifies this
      ensures clock == old(clock) && history == old(history) + [Event.Reset]
      ensures View() == AfterReset(old(View()))
      ensures old(Valid()) ==> Valid()
    {
      state, failures := Closed, 0;
      history := history + [Event.Reset];
    }
  }

  // ---------- How many calls get through ----------

  /** A call that starts, fails and ends. */
  datatype FailingCall = FailingCall(start: real, end: real)

  ghost predicate Sequential(calls: seq<FailingCall>, from: real, until: real) {
    && (forall i | 0 <= i < |calls| :: from <= calls[i].start <= calls[i].end <= until)
    && (forall i | 0 < i < |calls| :: calls[i - 1].end <= calls[i].start)
  }

  /** How many of the calls the breaker lets through. */
  function Executed(c: Config, history: seq<Event>, calls: seq<FailingCall>): nat
    decreases calls
  {
    if calls == [] then 0
    else if ModeAt(c, history, calls[0].start) == Open then Executed(c, history, calls[1..])
    else 1 + Executed(c, history + [Failed(calls[0].end)], calls[1..])
  }

  lemma {:induction false} AfterFailure(history: seq<Event>, at: real)
    ensures Fails(history + [Failed(at)]) == Fails(history) + 1
    ensures LastFailure(history + [Failed(at)]) == at
  {
    assert (history + [Failed(at)])[..|history|] == history;
  }

  lemma {:induction false} FirstCall(calls: seq<FailingCall>, from: real, until: real)
    requires calls != [] && Sequential(calls, from, until)
    ensures from <= calls[0].start <= calls[0].end <= until
    ensures Sequential(calls[1..], calls[0].end, until)
  {
    var rest := calls[1..];
    forall i | 0 <= i < |rest|
      ensures calls[0].end <= rest[i].start
    {
      EndsBefore(calls, i + 1);
    }
    assert forall i | 0 < i < |rest| :: rest[i - 1] == calls[i] && rest[i] == calls[i + 1];
  }

  lemma {:induction false} EndsBefore(calls: seq<FailingCall>, i: nat)
    requires 0 < i < |calls|
    requires forall k | 0 <= k < |calls| :: calls[k].start <= calls[k].end
    requires forall k | 0 < k < |calls| :: calls[k - 1].end <= calls[k].start
    ensures calls[0].end <= calls[i].start
  {
    if i > 1 {
      EndsBefore(calls, i - 1);
    }
  }

  /** Once tripped, a breaker lets a failing call through at most once per timeout. */
  lemma {:induction false} TrippedBound(c: Config, history: seq<Event>, calls: seq<FailingCall>,
                                        from: real, until: real)
    requires c.timeout > 0.0 && Fails(history) >= c.Trip()
    requires Sequential(calls, from, until) && LastFailure(history) <= from <= until
    ensures Times(Executed(c, history, calls), c.timeout) <= until - LastFailure(history)
    decreases calls
  {
    if calls != [] {
      hide Sequential, Fails, LastFailure;
      var first, rest := calls[0], calls[1..];
      FirstCall(calls, from, until);
      if ModeAt(c, history, first.start) == Open {
        TrippedBound(c, history, rest, first.end, until);
      } else {
        AfterFailure(history, first.end);
        TrippedBound(c, history + [Failed(first.end)], rest, first.end, until);
      }
    }
  }

  /** Before that, the remaining failures up to the threshold are free. */
  lemma {:induction false} ClosedBound(c: Config, history: seq<Event>, calls: seq<FailingCall>,
                                       from: real, until: real)
    requires c.timeout > 0.0 && Fails(history) < c.Trip()
    requires Sequential(calls, from, until) && from <= until
    ensures var free, n := c.Trip() - Fails(history), Executed(c, history, calls);
            n <= free || Times(n - free, c.timeout) <= until - from
    decreases calls
  {
    var free := c.Trip() - Fails(history);
    if calls != [] {
      hide Sequential, Fails, LastFailure;
      var first, rest := calls[0], calls[1..];
      FirstCall(calls, from, until);
      var history' := history + [Failed(first.end)];
      AfterFailure(history, first.end);
      if free > 1 {
        ClosedBound(c, history', rest, first.end, until);
      } else {
        TrippedBound(c, history', rest, first.end, until);
      }
    }
  }

  /** Failing calls within a stretch of length `until - from`, whatever happened before it. */
  lemma {:induction false} FailureBound(c: Config, history: seq<Event>, calls: seq<FailingCall>,
                                        from: real, until: real)
    requires c.timeout > 0.0
    requires Sequential(calls, from, until) && LastFailure(history) <= from <= until
    ensures Executed(c, history, calls) <= c.Trip() + ((until - from) / c.timeout).Floor
    decreases calls
  {
    hide Sequential, Fails, LastFailure;
    var n := Executed(c, history, calls);
    FitsTimes(0, c.timeout, until - from);
    if Fails(history) < c.Trip() {
      ClosedBound(c, history, calls, from, until);
      var free := c.Trip() - Fails(history);
      if n > free {
        FitsTimes(n - free, c.timeout, until - from);
      }
    } else if calls != [] {
      var first, rest := calls[0], calls[1..];
      FirstCall(calls, from, until);
      FloorGrows(c.timeout, until - first.end, until - from);
      if ModeAt(c, history, first.start) == Open {
        FailureBound(c, history, rest, first.end, until);
      } else {
        AfterFailure(history, first.end);
        TrippedBound(c, history + [Failed(first.end)], rest, first.end, until);
        FitsTimes(n - 1, c.timeout, until - first.end);
      }
    }
  }

  // ---------- The GitHub client ----------

  const GITHUB_BREAKER := Config(3, 60.0)
  const GITHUB_ATTEMPTS := 3
  const BASE_DELAY := 1.0
  const MAX_DELAY := 16.0

  /**
   * One call of `post_review` or `get_pr_diff`: when it starts, how its requests fare, when it ends, and
   * whether the reply can be read as what the caller gets (a review id, or the text as it is).
   */
  datatype Visit = Visit(start: real, outcomes: nat -> Attempt, end: real, readable: bool)

  /** `Interrupted` is an exception that neither the retry nor the breaker handles. */
  datatype Answer = Done | CircuitOpen | PrReviewError | Interrupted

  /** The retry loop from attempt `k` on: its result, and the attempts made in all. */
  function RetryFrom(outcomes: nat -> Attempt, maxAttempts: int, k: nat): (RetryResult, nat)
    decreases maxAttempts - k
  {
    if k >= maxAttempts then (if k == 0 then NoAttempt else RaisedLast, k)
    else
      match outcomes(k)
      case Success => (Returned, k + 1)
      case Fatal => (RaisedFatal, k + 1)
      case Retryable => RetryFrom(outcomes, maxAttempts, k + 1)
  }

  lemma {:induction false} RetryFromEnds(outcomes: nat -> Attempt, maxAttempts: int, k: nat)
    requires forall j: nat | j < k :: outcomes(j) == Retryable
    requires k <= (if maxAttempts < 0 then 0 else maxAttempts)
    ensures var r := RetryFrom(outcomes, maxAttempts, k);
            RetryEnds(outcomes, maxAttempts, r.0, r.1)
    decreases maxAttempts - k
  {
    if k < maxAttempts && outcomes(k) == Retryable {
      RetryFromEnds(outcomes, maxAttempts, k + 1);
    }
  }

  function Recorded(history: seq<Event>, result: RetryResult, end: real): seq<Event> {
    match result
    case Returned => history + [Succeeded]
    case RaisedLast => history + [Failed(end)]
    case NoAttempt => history + [Failed(end)]
    case RaisedFatal => history
  }

  /** The breaker's history and the requests sent after one more visit. */
  datatype Traffic = Traffic(history: seq<Event>, requests: nat)

  function Serve(t: Traffic, v: Visit): Traffic {
    if ModeAt(GITHUB_BREAKER, t.history, v.start) == Open then t
    else
      var (result, attempts) := RetryFrom(v.outcomes, GITHUB_ATTEMPTS, 0);
      Traffic(Recorded(t.history, result, v.end), t.requests + attempts)
  }

  function ServeAll(t: Traffic, visits: seq<Visit>): Traffic
    decreases visits
  {
    if visits == [] then t else ServeAll(Serve(t, visits[0]), visits[1..])
  }

  lemma {:induction false} RecordsDiffer(history: seq<Event>, end: real)
    ensures history + [Succeeded] != history && history + [Failed(end)] != history
    ensures history + [Succeeded] != history + [Failed(end)]
  {
    assert (history + [Succeeded])[|history|] == Succeeded && (history + [Failed(end)])[|history|] == Failed(end);
    assert |history + [Succeeded]| == |history + [Failed(end)]| == |history| + 1;
  }

  lemma {:induction false} NoSleep()
    ensures Slept(1.0, 16.0, 0) == 0.0
  {
  }

  class GitHubClient {
    const breaker: CircuitBreaker
    /** HTTP requests sent so far. */
    ghost var requests: nat

    ghost predicate Valid()
      reads this, breaker
    {
      breaker.Valid() && breaker.config == GITHUB_BREAKER
    }

    ghost function View(): Traffic
      reads this, breaker
    {
      Traffic(breaker.history, requests)
    }

    constructor (now: real)
      ensures Valid() && fresh(breaker) && View() == Traffic([], 0) && breaker.clock == now
    {
      breaker := new CircuitBreaker(GITHUB_BREAKER, now);
      requests := 0;
    }

    /** Both operations send their request through the retry loop, inside the one breaker. */
    method Send(v: Visit) returns (answer: Answer, ghost slept: real)
      requires Valid() && breaker.clock <= v.start <= v.end
      modifies this, breaker
      ensures Valid() && breaker.clock <= v.end
      ensures View() == Serve(old(View()), v)
      ensures answer == CircuitOpen <==> ModeAt(GITHUB_BREAKER, old(breaker.history), v.start) == Open
      ensures var sent := requests - old(requests);
              slept == Slept(1.0, 16.0, if sent == 0 then 0 else sent - 1)
      ensures answer == Done <==> View().history == old(View()).history + [Succeeded] && v.readable
      ensures answer == PrReviewError
              <==> View().history == old(View()).history + [Failed(v.end)]
                   || (View().history == old(View()).history + [Succeeded] && !v.readable)
    {
      hide Fails, LastFailure, ModeAt, StateRead, AfterSuccess, AfterFailing, RetryFrom, Slept;
      RecordsDiffer(breaker.history, v.end);
      var mode := breaker.State(v.start);
      if mode == Open {
        NoSleep();
        return CircuitOpen, 0.0;
      }
      var result, attempts, pause := RetryCall(v.outcomes, GITHUB_ATTEMPTS, BASE_DELAY, MAX_DELAY);
      RetryFromEnds(v.outcomes, GITHUB_ATTEMPTS, 0);
      ghost var spec := RetryFrom(v.outcomes, GITHUB_ATTEMPTS, 0);
      RetryIsDetermined(v.outcomes, GITHUB_ATTEMPTS, result, attempts, spec.0, spec.1);
      requests := requests + attempts;
      slept := pause;
      assert result != NoAttempt;
      hide RetryEnds;
      match result {
        case Returned =>
          breaker.OnSuccess();
          // The id is read behind the breaker, which has already recorded a success.
          answer := if v.readable then Done else PrReviewError;
        case RaisedFatal =>
          answer := Interrupted;
        case RaisedLast =>
          breaker.OnFailure(v.end);
          answer := PrReviewError;
      }
    }
  }

  ghost predicate EveryRequestFails(visits: seq<Visit>) {
    forall i, k: nat | 0 <= i < |visits| && k < GITHUB_ATTEMPTS :: visits[i].outcomes(k) == Retryable
  }

  function AsCalls(visits: seq<Visit>): seq<FailingCall> {
    Map((v: Visit) => FailingCall(v.start, v.end), visits)
  }

  lemma {:induction false} FailingVisit(outcomes: nat -> Attempt)
    requires forall k: nat | k < GITHUB_ATTEMPTS :: outcomes(k) == Retryable
    ensures RetryFrom(outcomes, GITHUB_ATTEMPTS, 0) == (RaisedLast, 3)
  {
    assert RetryFrom(outcomes, 3, 3) == (RaisedLast, 3);
    assert RetryFrom(outcomes, 3, 2) == RetryFrom(outcomes, 3, 3);
    assert RetryFrom(outcomes, 3, 1) == RetryFrom(outcomes, 3, 2);
  }

  lemma {:induction false} FailingVisitsSendThreeEach(t: Traffic, visits: seq<Visit>)
    requires EveryRequestFails(visits)
    ensures ServeAll(t, visits).requests
            == t.requests + 3 * Executed(GITHUB_BREAKER, t.history, AsCalls(visits))
    decreases visits
  {
    if visits != [] {
      hide ModeAt, RetryFrom;
      FailingVisit(visits[0].outcomes);
      assert AsCalls(visits)[1..] == AsCalls(visits[1..]);
      FailingVisitsSendThreeEach(Serve(t, visits[0]), visits[1..]);
    }
  }

  /** A client all of whose requests fail within D seconds sends at most 3 * (3 + D div 60) of them. */
  lemma {:induction false} OutageTraffic(t: Traffic, visits: seq<Visit>, from: real, until: real)
    requires EveryRequestFails(visits)
    requires Sequential(AsCalls(visits), from, until) && LastFailure(t.history) <= from <= until
    ensures ServeAll(t, visits).requests - t.requests <= 3 * (3 + ((until - from) / 60.0).Floor)
  {
    FailingVisitsSendThreeEach(t, visits);
    FailureBound(GITHUB_BREAKER, t.history, AsCalls(visits), from, until);
  }

  /** A call all of whose requests fail sleeps one second and two seconds between its three requests. */
  lemma {:induction false} FailingVisitSleeps()
    ensures Slept(1.0, 16.0, 2) == 3.0
  {
    assert Backoff(1.0, 1) == 2.0 && Backoff(1.0, 0) == 1.0;
    SleepIsExact(1.0, 16.0, 2, 2);
    assert Power2(2) == 4;
  }

  /**
   * The first outage of a client: its first three failing calls go through and send three requests each; from
   * then on, and until sixty seconds after the third has failed, it sends nothing, and then it tries again.
   */
  lemma {:induction false} ThreeCallsThenSilence(visits: seq<Visit>, next: Visit)
    requires EveryRequestFails(visits) && |visits| == 3
    requires forall i | 0 < i < 3 :: visits[i - 1].end <= visits[i].start
    ensures var t := ServeAll(Traffic([], 0), visits);
            && t.requests == 9
            && (next.start - visits[2].end < 60.0 ==> Serve(t, next) == t)
            && (next.start - visits[2].end >= 60.0 && next.outcomes(0) == Success ==>
                  Serve(t, next) == Traffic(t.history + [Succeeded], 10))
  {
    var t0 := Traffic([], 0);
    var f0, f1, f2 := Failed(visits[0].end), Failed(visits[1].end), Failed(visits[2].end);
    FailingVisit(visits[0].outcomes);
    FailingVisit(visits[1].outcomes);
    FailingVisit(visits[2].outcomes);
    assert EndsInFailures([], 0) && EndsInFailures([f0], 1) && EndsInFailures([f0, f1], 2);
    ModeMeans(GITHUB_BREAKER, [], 0, visits[0].start);
    ModeMeans(GITHUB_BREAKER, [f0], 1, visits[1].start);
    ModeMeans(GITHUB_BREAKER, [f0, f1], 2, visits[2].start);
    hide ModeAt, RetryFrom, EndsInFailures;
    var t1, t2, t3 := Traffic([f0], 3), Traffic([f0, f1], 6), Traffic([f0, f1, f2], 9);
    assert [] + [f0] == [f0] && [f0] + [f1] == [f0, f1] && [f0, f1] + [f2] == [f0, f1, f2];
    assert Serve(t0, visits[0]) == t1 && Serve(t1, visits[1]) == t2 && Serve(t2, visits[2]) == t3;
    assert visits[1..][1..] == visits[2..] && visits[2..][1..] == [];
    assert ServeAll(t0, visits) == ServeAll(t1, visits[1..]) == ServeAll(t2, visits[2..]) == ServeAll(t3, []);
    AfterThree(f0, f1, f2, next);
  }

  lemma {:induction false} AfterThree(f0: Event, f1: Event, f2: Event, next: Visit)
    requires f0.Failed? && f1.Failed? && f2.Failed?
    ensures var t := Traffic([f0, f1, f2], 9);
            && (next.start - f2.at < 60.0 ==> Serve(t, next) == t)
            && (next.start - f2.at >= 60.0 && next.outcomes(0) == Success ==>
                  Serve(t, next) == Traffic(t.history + [Succeeded], 10))
  {
    assert EndsInFailures([f0, f1, f2], 3);
    ModeMeans(GITHUB_BREAKER, [f0, f1, f2], 3, next.start);
    hide ModeAt, EndsInFailures;
  }
}
