/**
 * The sample repository's token bucket. Its two numbers of state decide exactly as a rule
 * that looks at every window of the whole call history.
 */
module RateLimiting {
  import opened Common

  /** One call of `allow`: when it happened and what it answered. */
  datatype Call = Call(at: real, admitted: bool)

  datatype Limit = Limit(capacity: int, rate: real) {
    function Cap(): real {
      capacity as real
    }
  }

  // ---------- The rule over all windows ----------

  function Admissions(calls: seq<Call>): nat {
    if calls == [] then 0
    else Admissions(calls[..|calls| - 1]) + (if calls[|calls| - 1].admitted then 1 else 0)
  }

  /** Tokens that accrue between two moments. */
  function Earned(limit: Limit, since: real, now: real): real {
    (now - since) * limit.rate
  }

  /** Tokens left at `now` if the bucket had last been full at `since`, with `calls` made from then on. */
  function Budget(limit: Limit, since: real, calls: seq<Call>, now: real): real {
    limit.Cap() + Earned(limit, since, now) - Admissions(calls) as real
  }

  /** No window, from the creation or from any earlier call up to now, has less than `need` left. */
  ghost predicate EveryWindowHas(limit: Limit, born: real, calls: seq<Call>, now: real, need: real) {
    && limit.Cap() >= need
    && Budget(limit, born, calls, now) >= need
    && (forall i | 0 <= i < |calls| :: Budget(limit, calls[i].at, calls[i..], now) >= need)
  }

  ghost predicate Admissible(limit: Limit, born: real, calls: seq<Call>, now: real) {
    EveryWindowHas(limit, born, calls, now, 1.0)
  }

  // ---------- The constant-size state ----------

  function LastAt(born: real, calls: seq<Call>): real {
    if calls == [] then born else calls[|calls| - 1].at
  }

  /** The tokens after refilling at `now`. */
  function Refilled(limit: Limit, born: real, calls: seq<Call>, now: real): real
    decreases |calls|, 1
  {
    Min(limit.Cap(), Tokens(limit, born, calls) + Earned(limit, LastAt(born, calls), now))
  }

  /** The tokens after the last call. */
  function Tokens(limit: Limit, born: real, calls: seq<Call>): real
    decreases |calls|, 0
  {
    if calls == [] then limit.Cap()
    else
      var last := calls[|calls| - 1];
      Refilled(limit, born, calls[..|calls| - 1], last.at) - (if last.admitted then 1.0 else 0.0)
  }

  lemma {:induction false} EarnedSplits(limit: Limit, a: real, b: real, c: real)
    ensures Earned(limit, a, b) + Earned(limit, b, c) == Earned(limit, a, c)
    ensures Earned(limit, a, a) == 0.0
  {
  }

  lemma {:induction false} EarnedGrows(limit: Limit, a: real, b: real, c: real)
    requires limit.rate >= 0.0 && a <= b <= c
    ensures 0.0 <= Earned(limit, a, b) <= Earned(limit, a, c)
    ensures 0.0 <= Earned(limit, b, c) <= Earned(limit, a, c)
  {
    assert (b - a) * limit.rate >= 0.0 && (c - b) * limit.rate >= 0.0;
    EarnedSplits(limit, a, b, c);
  }

  /** A window seen one call later. */
  lemma {:induction false} BudgetStep(limit: Limit, since: real, calls: seq<Call>, last: Call, now: real)
    ensures Budget(limit, since, calls + [last], now)
            == Budget(limit, since, calls, last.at) + Earned(limit, last.at, now)
               - (if last.admitted then 1.0 else 0.0)
  {
    assert (calls + [last])[..|calls|] == calls;
    EarnedSplits(limit, since, last.at, now);
  }

  lemma {:induction false} NoCalls()
    ensures Admissions([]) == 0
  {
  }

  lemma {:induction false} WindowsStep(limit: Limit, born: real, calls: seq<Call>, last: Call, now: real, need: real)
    ensures var before := need - Earned(limit, last.at, now) + (if last.admitted then 1.0 else 0.0);
            EveryWindowHas(limit, born, calls + [last], now, need)
            <==> limit.Cap() >= need && EveryWindowHas(limit, born, calls, last.at, before)
  {
    hide Admissions, Earned;
    var before := need - Earned(limit, last.at, now) + (if last.admitted then 1.0 else 0.0);
    var all := calls + [last];
    BudgetStep(limit, born, calls, last, now);
    BudgetStep(limit, last.at, [], last, now);
    EarnedSplits(limit, last.at, last.at, now);
    assert all[|calls|..] == [] + [last] && all[|calls|] == last;
    assert Budget(limit, last.at, [], last.at) == limit.Cap() by { NoCalls(); }
    assert Budget(limit, last.at, all[|calls|..], now) >= need <==> limit.Cap() >= before;
    forall i | 0 <= i < |calls|
      ensures all[i].at == calls[i].at
      ensures Budget(limit, calls[i].at, all[i..], now) >= need
              <==> Budget(limit, calls[i].at, calls[i..], last.at) >= before
    {
      assert all[i..] == calls[i..] + [last];
      BudgetStep(limit, calls[i].at, calls[i..], last, now);
    }
    if EveryWindowHas(limit, born, all, now, need) {
      assert forall i | 0 <= i < |calls| :: Budget(limit, all[i].at, all[i..], now) >= need;
    }
    if limit.Cap() >= need && EveryWindowHas(limit, born, calls, last.at, before) {
      forall i | 0 <= i < |all|
        ensures Budget(limit, all[i].at, all[i..], now) >= need
      {
        if i < |calls| {
          assert Budget(limit, calls[i].at, calls[i..], last.at) >= before;
        }
      }
    }
  }

  lemma {:induction false} RefilledStep(limit: Limit, born: real, calls: seq<Call>, last: Call, now: real, need: real)
    ensures var before := need - Earned(limit, last.at, now) + (if last.admitted then 1.0 else 0.0);
            Refilled(limit, born, calls + [last], now) >= need
            <==> limit.Cap() >= need && Refilled(limit, born, calls, last.at) >= before
  {
    assert (calls + [last])[..|calls|] == calls;
    assert Tokens(limit, born, calls + [last])
           == Refilled(limit, born, calls, last.at) - (if last.admitted then 1.0 else 0.0);
  }

  /** The refilled bucket holds the least budget of all windows. */
  lemma {:induction false} RefilledIsLeastBudget(limit: Limit, born: real, calls: seq<Call>, now: real, need: real)
    ensures Refilled(limit, born, calls, now) >= need <==> EveryWindowHas(limit, born, calls, now, need)
    decreases |calls|
  {
    if calls == [] {
      assert Tokens(limit, born, calls) == limit.Cap();
    } else {
      hide EveryWindowHas, Refilled;
      var before, last := calls[..|calls| - 1], calls[|calls| - 1];
      assert calls == before + [last];
      WindowsStep(limit, born, before, last, now, need);
      RefilledStep(limit, born, before, last, now, need);
      RefilledIsLeastBudget(limit, born, before, last.at,
                            need - Earned(limit, last.at, now) + (if last.admitted then 1.0 else 0.0));
    }
  }

  // ---------- How many calls a window admits ----------

  /** A history in which every answer is the rule's. */
  ghost predicate Decided(limit: Limit, born: real, calls: seq<Call>) {
    forall k | 0 <= k < |calls| :: calls[k].admitted == Admissible(limit, born, calls[..k], calls[k].at)
  }

  ghost predicate Monotone(born: real, calls: seq<Call>) {
    && (forall k | 0 <= k < |calls| :: born <= calls[k].at)
    && (forall j, k | 0 <= j < k < |calls| :: calls[j].at <= calls[k].at)
  }

  /** The answers respect the limit in every window between two calls. */
  ghost predicate Conforms(limit: Limit, calls: seq<Call>) {
    forall i, j | 0 <= i <= j < |calls| ::
      Admissions(calls[i..j + 1]) as real <= limit.Cap() + Earned(limit, calls[i].at, calls[j].at)
  }

  lemma {:induction false} LastOfWindow(calls: seq<Call>, i: nat, j: nat)
    requires i <= j < |calls|
    ensures Admissions(calls[i..j + 1]) == Admissions(calls[i..j]) + (if calls[j].admitted then 1 else 0)
    ensures calls[i..i] == [] && Admissions([]) == 0
  {
    assert calls[i..j + 1][..j - i] == calls[i..j];
  }

  lemma {:induction false} WindowBound(limit: Limit, born: real, calls: seq<Call>, i: nat, j: nat)
    requires limit.capacity >= 0 && limit.rate >= 0.0
    requires Decided(limit, born, calls) && Monotone(born, calls)
    requires i <= j < |calls|
    ensures Admissions(calls[i..j + 1]) as real <= limit.Cap() + Earned(limit, calls[i].at, calls[j].at)
    decreases j
  {
    hide Admissions, Earned, Refilled, Tokens;
    LastOfWindow(calls, i, j);
    EarnedSplits(limit, calls[i].at, calls[i].at, calls[j].at);
    if calls[j].admitted {
      assert Admissible(limit, born, calls[..j], calls[j].at);
      if i < j {
        assert calls[..j][i] == calls[i] && calls[..j][i..] == calls[i..j];
        assert Budget(limit, calls[..j][i].at, calls[..j][i..], calls[j].at) >= 1.0;
      }
    } else if i < j {
      WindowBound(limit, born, calls, i, j - 1);
      EarnedGrows(limit, calls[i].at, calls[j - 1].at, calls[j].at);
    }
  }

  /** Every window of length T admits at most capacity + rate * T calls. */
  lemma {:induction false} BucketConforms(limit: Limit, born: real, calls: seq<Call>)
    requires limit.capacity >= 0 && limit.rate >= 0.0
    requires Decided(limit, born, calls) && Monotone(born, calls)
    ensures Conforms(limit, calls)
  {
    forall i, j | 0 <= i <= j < |calls|
      ensures Admissions(calls[i..j + 1]) as real <= limit.Cap() + Earned(limit, calls[i].at, calls[j].at)
    {
      WindowBound(limit, born, calls, i, j);
    }
  }

  lemma {:induction false} AdmissionsConcat(a: seq<Call>, b: seq<Call>)
    ensures Admissions(a + b) == Admissions(a) + Admissions(b)
  {
    if b == [] {
      assert a + b == a;
    } else {
      assert (a + b)[..|a + b| - 1] == a + b[..|b| - 1];
      AdmissionsConcat(a, b[..|b| - 1]);
    }
  }

  ghost predicate NoneBeats(calls: seq<Call>, other: seq<Call>, n: nat)
    requires n <= |calls| && n <= |other|
  {
    Admissions(other[..n]) <= Admissions(calls[..n])
  }

  /** The bucket is the most generous policy: nothing else within the limit admits more of any prefix. */
  lemma {:induction false} BucketIsMostGenerous(limit: Limit, born: real, calls: seq<Call>, other: seq<Call>, k: nat)
    requires limit.capacity >= 0 && limit.rate >= 0.0
    requires Decided(limit, born, calls) && Monotone(born, calls)
    requires |other| == |calls| && forall i | 0 <= i < |calls| :: other[i].at == calls[i].at
    requires Conforms(limit, other)
    requires k <= |calls|
    ensures forall n: nat | n <= k :: NoneBeats(calls, other, n)
    decreases k
  {
    hide Admissions, Decided, Monotone, Conforms, NoneBeats;
    if k == 0 {
      NothingBeaten(calls, other);
    } else {
      BucketIsMostGenerous(limit, born, calls, other, k - 1);
      if other[k - 1].admitted && !calls[k - 1].admitted {
        RefusalIsForced(limit, born, calls, other, k - 1);
      }
      StillUnbeaten(calls, other, k - 1);
    }
  }

  lemma {:induction false} NothingBeaten(calls: seq<Call>, other: seq<Call>)
    ensures NoneBeats(calls, other, 0)
  {
    assert other[..0] == calls[..0] == [];
  }

  lemma {:induction false} StillUnbeaten(calls: seq<Call>, other: seq<Call>, k: nat)
    requires k < |calls| && k < |other| && NoneBeats(calls, other, k)
    requires other[k].admitted && !calls[k].admitted ==> Admissions(other[..k]) < Admissions(calls[..k])
    ensures NoneBeats(calls, other, k + 1)
  {
    hide Admissions;
    OneMoreCall(calls, k);
    OneMoreCall(other, k);
  }

  lemma {:induction false} OneMoreCall(calls: seq<Call>, k: nat)
    requires k < |calls|
    ensures Admissions(calls[..k + 1]) == Admissions(calls[..k]) + (if calls[k].admitted then 1 else 0)
  {
    assert calls[..k + 1][..k] == calls[..k];
  }

  /** Where the bucket refuses, a rival that admits has admitted fewer calls before. */
  lemma {:induction false} RefusalIsForced(limit: Limit, born: real, calls: seq<Call>, other: seq<Call>, k: nat)
    requires limit.capacity >= 0 && limit.rate >= 0.0
    requires Decided(limit, born, calls) && Monotone(born, calls)
    requires |other| == |calls| && forall i | 0 <= i < |calls| :: other[i].at == calls[i].at
    requires Conforms(limit, other)
    requires k < |calls| && other[k].admitted && !calls[k].admitted
    requires forall n: nat | n <= k :: NoneBeats(calls, other, n)
    ensures Admissions(other[..k]) < Admissions(calls[..k])
  {
    hide Admissions, Earned, Refilled, Tokens, Conforms;
    var now := calls[k].at;
    assert !Admissible(limit, born, calls[..k], now);
    LastOfWindow(other, k, k);
    EarnedSplits(limit, now, now, now);
    OtherWindow(limit, other, k, k);
    assert NoneBeats(calls, other, k);
    if Budget(limit, born, calls[..k], now) < 1.0 {
      EarnedGrows(limit, born, calls[0].at, now);
      if k > 0 {
        OtherWindow(limit, other, 0, k);
        assert other[0..k] == other[..k];
      }
    } else {
      var i :| 0 <= i < k && Budget(limit, calls[..k][i].at, calls[..k][i..], now) < 1.0;
      assert NoneBeats(calls, other, i);
      OtherWindow(limit, other, i, k);
      assert other[..k] == other[..i] + other[i..k] && calls[..k] == calls[..i] + calls[i..k];
      assert calls[..k][i..] == calls[i..k];
      AdmissionsConcat(other[..i], other[i..k]);
      AdmissionsConcat(calls[..i], calls[i..k]);
    }
  }

  lemma {:induction false} OtherWindow(limit: Limit, other: seq<Call>, i: nat, k: nat)
    requires Conforms(limit, other) && i <= k < |other| && other[k].admitted
    ensures Admissions(other[i..k]) as real + 1.0 <= limit.Cap() + Earned(limit, other[i].at, other[k].at)
  {
    assert other[i..k + 1][..k - i] == other[i..k];
    assert Admissions(other[i..k + 1]) as real <= limit.Cap() + Earned(limit, other[i].at, other[k].at);
  }

  // ---------- The same in plain terms ----------

  /** How many of the calls from `i` up to, but not including, `j` were admitted. */
  ghost function AdmittedBetween(calls: seq<Call>, i: nat, j: nat): nat
    requires i <= j <= |calls|
  {
    |set k | i <= k < j && calls[k].admitted|
  }

  lemma {:induction false} AdmittedOneMore(calls: seq<Call>, i: nat, j: nat)
    requires i < j <= |calls|
    ensures AdmittedBetween(calls, i, j)
            == AdmittedBetween(calls, i, j - 1) + (if calls[j - 1].admitted then 1 else 0)
  {
    var before := set k | i <= k < j - 1 && calls[k].admitted;
    assert (set k | i <= k < j && calls[k].admitted) == if calls[j - 1].admitted then before + {j - 1} else before;
  }

  lemma {:induction false} AdmissionsCount(calls: seq<Call>, i: nat, j: nat)
    requires i <= j <= |calls|
    ensures Admissions(calls[i..j]) == AdmittedBetween(calls, i, j)
    decreases j
  {
    if i == j {
      assert calls[i..j] == [] && AdmittedBetween(calls, i, j) == 0;
    } else {
      hide AdmittedBetween;
      AdmissionsCount(calls, i, j - 1);
      AdmittedOneMore(calls, i, j);
      var window := calls[i..j];
      assert window[..|window| - 1] == calls[i..j - 1] && window[|window| - 1] == calls[j - 1];
    }
  }

  /**
   * The limit, on capacity, rate, times and counts alone: a call at `now` leaves at least one token in the
   * window that begins at `since` and contains the calls from number `i` on.
   */
  ghost predicate RoomSince(capacity: int, rate: real, since: real, calls: seq<Call>, i: nat, now: real)
    requires i <= |calls|
  {
    capacity as real + rate * (now - since) - AdmittedBetween(calls, i, |calls|) as real >= 1.0
  }

  /** Room in an empty bucket's worth of calls, since the creation, and since every earlier call. */
  ghost predicate RoomEverywhere(capacity: int, rate: real, born: real, calls: seq<Call>, now: real) {
    && capacity >= 1
    && RoomSince(capacity, rate, born, calls, 0, now)
    && (forall i | 0 <= i < |calls| :: RoomSince(capacity, rate, calls[i].at, calls, i, now))
  }

  lemma {:induction false} BudgetMeans(limit: Limit, since: real, calls: seq<Call>, i: nat, now: real)
    requires i <= |calls|
    ensures Budget(limit, since, calls[i..], now) >= 1.0
            <==> RoomSince(limit.capacity, limit.rate, since, calls, i, now)
  {
    AdmissionsCount(calls, i, |calls|);
    assert calls[i..|calls|] == calls[i..];
    assert (now - since) * limit.rate == limit.rate * (now - since);
  }

  /** The rule over all windows, spelled out. */
  lemma {:induction false} AdmissibleMeans(limit: Limit, born: real, calls: seq<Call>, now: real)
    ensures Admissible(limit, born, calls, now)
            <==> RoomEverywhere(limit.capacity, limit.rate, born, calls, now)
  {
    hide Budget, RoomSince;
    assert calls[0..] == calls;
    BudgetMeans(limit, born, calls, 0, now);
    forall i | 0 <= i < |calls|
      ensures Budget(limit, calls[i].at, calls[i..], now) >= 1.0
              <==> RoomSince(limit.capacity, limit.rate, calls[i].at, calls, i, now)
    {
      BudgetMeans(limit, calls[i].at, calls, i, now);
    }
  }

  /** Every window admits at most capacity + rate * length calls. */
  ghost predicate WithinLimit(capacity: int, rate: real, calls: seq<Call>) {
    forall i, j | 0 <= i <= j < |calls| ::
      AdmittedBetween(calls, i, j + 1) as real <= capacity as real + rate * (calls[j].at - calls[i].at)
  }

  lemma {:induction false} ConformsMeans(limit: Limit, calls: seq<Call>)
    ensures Conforms(limit, calls) <==> WithinLimit(limit.capacity, limit.rate, calls)
  {
    hide Admissions, AdmittedBetween;
    forall i, j | 0 <= i <= j < |calls|
      ensures Admissions(calls[i..j + 1]) == AdmittedBetween(calls, i, j + 1)
      ensures Earned(limit, calls[i].at, calls[j].at) == limit.rate * (calls[j].at - calls[i].at)
    {
      AdmissionsCount(calls, i, j + 1);
    }
  }

  /** Every window of length T of a decided history admits at most capacity + rate * T calls. */
  lemma {:induction false} BucketStaysWithinLimit(limit: Limit, born: real, calls: seq<Call>)
    requires limit.capacity >= 0 && limit.rate >= 0.0
    requires Decided(limit, born, calls) && Monotone(born, calls)
    ensures WithinLimit(limit.capacity, limit.rate, calls)
  {
    hide Decided, Monotone, Conforms, WithinLimit;
    BucketConforms(limit, born, calls);
    ConformsMeans(limit, calls);
  }

  // ---------- The bucket ----------

  class TokenBucket {
    const limit: Limit
    var tokens: real
    var lastRefill: real
    ghost const born: real
    ghost var calls: seq<Call>

    ghost predicate Valid()
      reads this
    {
      tokens == Tokens(limit, born, calls) && lastRefill == LastAt(born, calls)
    }

    constructor (limit: Limit, now: real)
      ensures Valid() && calls == []
      ensures this.limit == limit && born == now
    {
      this.limit := limit;
      tokens, lastRefill := limit.capacity as real, now;
      born, calls := now, [];
    }

    method Refill(now: real)
      requires Valid()
      modifies this`tokens, this`lastRefill
      ensures tokens == Refilled(limit, born, calls, now) && lastRefill == now
    {
      var elapsed := now - lastRefill;
      tokens := Min(limit.capacity as real, tokens + elapsed * limit.rate);
      lastRefill := now;
    }

    /** Admits a call exactly when every window of the history still has a token for it. */
    method Allow(now: real) returns (ok: bool)
      requires Valid()
      modifies this
      ensures Valid()
      ensures ok == Admissible(limit, born, old(calls), now)
      ensures ok <==> RoomEverywhere(limit.capacity, limit.rate, born, old(calls), now)
      ensures calls == old(calls) + [Call(now, ok)]
    {
      hide RoomEverywhere;
      RefilledIsLeastBudget(limit, born, calls, now, 1.0);
      AdmissibleMeans(limit, born, calls, now);
      Refill(now);
      ok := tokens >= 1.0;
      if ok {
        tokens := tokens - 1.0;
      }
      assert (calls + [Call(now, ok)])[..|calls|] == calls;
      calls := calls + [Call(now, ok)];
    }
  }

  // ---------- One bucket per client ----------

  /** A `check` by `client`; the bucket of a new client is created at `born`. */
  datatype Request = Request(client: string, born: real, now: real)

  datatype History = History(born: real, calls: seq<Call>)

  ghost function Serve(limit: Limit, histories: map<string, History>, r: Request): map<string, History> {
    var h := if r.client in histories then histories[r.client] else History(r.born, []);
    histories[r.client := History(h.born, h.calls + [Call(r.now, Admissible(limit, h.born, h.calls, r.now))])]
  }

  ghost function ServeAll(limit: Limit, trace: seq<Request>): map<string, History> {
    if trace == [] then map[]
    else Serve(limit, ServeAll(limit, trace[..|trace| - 1]), trace[|trace| - 1])
  }

  function OnlyFrom(trace: seq<Request>, client: string): seq<Request> {
    if trace == [] then []
    else
      var before, last := OnlyFrom(trace[..|trace| - 1], client), trace[|trace| - 1];
      if last.client == client then before + [last] else before
  }

  /** What a client is told depends on its own requests alone. */
  lemma {:induction false} ClientsAreIsolated(limit: Limit, trace: seq<Request>, client: string)
    ensures var all, own := ServeAll(limit, trace), ServeAll(limit, OnlyFrom(trace, client));
            && (client in all <==> client in own)
            && (client in all ==> all[client] == own[client])
  {
    if trace != [] {
      hide Admissible;
      var before, last := trace[..|trace| - 1], trace[|trace| - 1];
      ClientsAreIsolated(limit, before, client);
      if last.client == client {
        var own := OnlyFrom(before, client);
        assert (own + [last])[..|own|] == own;
        assert ServeAll(limit, own + [last]) == Serve(limit, ServeAll(limit, own), last);
      }
    }
  }

  /** Every history that the limiter builds up is decided by the all-windows rule. */
  lemma {:induction false} ServedIsDecided(limit: Limit, trace: seq<Request>, client: string)
    requires client in ServeAll(limit, trace)
    ensures var h := ServeAll(limit, trace)[client];
            Decided(limit, h.born, h.calls)
  {
    hide Admissible;
    var before, last := trace[..|trace| - 1], trace[|trace| - 1];
    var served := ServeAll(limit, before);
    if client in served {
      ServedIsDecided(limit, before, client);
    }
    if last.client == client {
      var h := if client in served then served[client] else History(last.born, []);
      DecidedStep(limit, h.born, h.calls, last.now);
    }
  }

  lemma {:induction false} DecidedStep(limit: Limit, born: real, calls: seq<Call>, now: real)
    requires Decided(limit, born, calls)
    ensures Decided(limit, born, calls + [Call(now, Admissible(limit, born, calls, now))])
  {
    hide Admissible;
    var all := calls + [Call(now, Admissible(limit, born, calls, now))];
    assert forall k | 0 <= k <= |calls| :: all[..k] == calls[..k];
    assert calls[..|calls|] == calls;
  }

  /** Successive clock readings never go back; a bucket is created no later than it is first asked. */
  ghost predicate ClockRuns(trace: seq<Request>) {
    && (forall i | 0 <= i < |trace| :: trace[i].born <= trace[i].now)
    && (forall i, j | 0 <= i < j < |trace| :: trace[i].now <= trace[j].now)
  }

  ghost predicate Before(calls: seq<Call>, now: real) {
    forall k | 0 <= k < |calls| :: calls[k].at <= now
  }

  /** A running clock makes every client's history monotone. */
  lemma {:induction false} ServedIsMonotone(limit: Limit, trace: seq<Request>, client: string)
    requires ClockRuns(trace) && client in ServeAll(limit, trace)
    ensures var h := ServeAll(limit, trace)[client];
            Monotone(h.born, h.calls) && Before(h.calls, trace[|trace| - 1].now)
            && h.born <= trace[|trace| - 1].now
  {
    hide Admissible;
    var before, last := trace[..|trace| - 1], trace[|trace| - 1];
    var served := ServeAll(limit, before);
    if client in served {
      ServedIsMonotone(limit, before, client);
      assert before[|before| - 1].now <= last.now;
    }
  }

  /** Whatever the other clients do, each client stays within the limit in every window of its own calls. */
  lemma {:induction false} EveryClientConforms(limit: Limit, trace: seq<Request>, client: string)
    requires limit.capacity >= 0 && limit.rate >= 0.0
    requires ClockRuns(trace) && client in ServeAll(limit, trace)
    ensures WithinLimit(limit.capacity, limit.rate, ServeAll(limit, trace)[client].calls)
  {
    hide Admissible, ServeAll, Decided, Conforms, ClockRuns, WithinLimit;
    var h := ServeAll(limit, trace)[client];
    ServedIsDecided(limit, trace, client);
    ServedIsMonotone(limit, trace, client);
    BucketStaysWithinLimit(limit, h.born, h.calls);
  }

  /** A client's history has a call for each of its requests, in order, from a bucket made at the first one. */
  lemma {:induction false} HistoryOfRequests(limit: Limit, trace: seq<Request>, client: string)
    ensures var own := OnlyFrom(trace, client);
            && (client in ServeAll(limit, trace) <==> own != [])
            && (client in ServeAll(limit, trace) ==>
                  var h := ServeAll(limit, trace)[client];
                  && h.born == own[0].born && |h.calls| == |own|
                  && (forall k | 0 <= k < |own| :: h.calls[k].at == own[k].now)
                  && (forall k | 0 <= k < |own| ::
                        h.calls[k].admitted
                        <==> RoomEverywhere(limit.capacity, limit.rate, h.born, h.calls[..k], own[k].now)))
  {
    hide RoomEverywhere;
    if trace != [] {
      hide Admissible;
      var before, last := trace[..|trace| - 1], trace[|trace| - 1];
      HistoryOfRequests(limit, before, client);
      if last.client == client {
        var served := ServeAll(limit, before);
        var h := if client in served then served[client] else History(last.born, []);
        AdmissibleMeans(limit, h.born, h.calls, last.now);
        var call := Call(last.now, Admissible(limit, h.born, h.calls, last.now));
        assert (h.calls + [call])[..|h.calls|] == h.calls;
        assert forall k | 0 <= k < |h.calls| :: (h.calls + [call])[..k] == h.calls[..k];
      }
    }
  }

  class RateLimiter {
    const limit: Limit
    var buckets: map<string, TokenBucket>

    ghost predicate Valid()
      reads this, buckets.Values
    {
      && (forall c | c in buckets :: buckets[c].Valid() && buckets[c].limit == limit)
      && (forall c, d | c in buckets && d in buckets && c != d :: buckets[c] != buckets[d])
    }

    ghost function Histories(): map<string, History>
      reads this, buckets.Values
    {
      map c | c in buckets :: History(buckets[c].born, buckets[c].calls)
    }

    constructor (limit: Limit)
      ensures Valid() && Histories() == map[] && this.limit == limit
    {
      this.limit := limit;
      buckets := map[];
    }

    method Check(r: Request) returns (ok: bool)
      requires Valid()
      modifies this, buckets.Values
      ensures Valid() && fresh(buckets.Values - old(buckets.Values))
      ensures Histories() == Serve(limit, old(Histories()), r)
      ensures ok == Histories()[r.client].calls[|Histories()[r.client].calls| - 1].admitted
    {
      hide Admissible, Tokens, LastAt, RoomEverywhere;
      if r.client !in buckets {
        var bucket := new TokenBucket(limit, r.born);
        buckets := buckets[r.client := bucket];
      }
      ok := buckets[r.client].Allow(r.now);
    }
  }
}
