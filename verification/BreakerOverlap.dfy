/**
 * The circuit breaker under overlapping calls. There is no lock around it: a call that was let through may
 * end when the breaker has long changed its state, and a half-open breaker lets every call through that
 * comes before the first answer.
 */
module BreakerOverlap {
  import opened Common
  import opened Reliability

  /** The breaker, the calls under way, and the calls let through and abandoned so far. */
  datatype State = State(fields: Fields, inFlight: nat, admitted: nat, abandoned: nat)

  /**
   * A call arrives, a call under way succeeds, fails, or is abandoned, or somebody resets the breaker. An
   * abandoned call leaves by an exception that the breaker does not catch, so that nothing is recorded.
   */
  datatype Action = Begin(at: real) | Succeed | Fail(at: real) | Abandon | Clear

  function Initial(): State {
    State(Fields(Closed, 0, 0.0), 0, 0, 0)
  }

  function Step(c: Config, s: State, a: Action): State {
    match a
    case Begin(at) =>
      var fields := StateRead(c, s.fields, at);
      if fields.mode == Open then s.(fields := fields)
      else s.(fields := fields, inFlight := s.inFlight + 1, admitted := s.admitted + 1)
    case Succeed =>
      if s.inFlight == 0 then s else s.(fields := AfterSuccess(s.fields), inFlight := s.inFlight - 1)
    case Fail(at) =>
      if s.inFlight == 0 then s else s.(fields := AfterFailing(c, s.fields, at), inFlight := s.inFlight - 1)
    case Abandon =>
      if s.inFlight == 0 then s else s.(inFlight := s.inFlight - 1, abandoned := s.abandoned + 1)
    case Clear => s.(fields := AfterReset(s.fields))
  }

  function Run(c: Config, s: State, actions: seq<Action>): State
    decreases actions
  {
    if actions == [] then s else Run(c, Step(c, s, actions[0]), actions[1..])
  }

  // ---------- Any history ----------

  /** A closed breaker has fewer failures than trip it. */
  predicate Sound(c: Config, s: State) {
    s.fields.failures >= 0 && (s.fields.mode == Closed ==> s.fields.failures < c.Trip())
  }

  lemma {:induction false} RunStaysSound(c: Config, s: State, actions: seq<Action>)
    requires Sound(c, s)
    ensures Sound(c, Run(c, s, actions))
    decreases actions
  {
    if actions != [] {
      RunStaysSound(c, Step(c, s, actions[0]), actions[1..]);
    }
  }

  // ---------- A stretch without success ----------

  /**
   * No success and no reset: calls arrive, fail or are abandoned, between two moments, by a clock that
   * does not run backwards.
   */
  ghost predicate Stretch(actions: seq<Action>, from: real, until: real)
    decreases actions
  {
    if actions == [] then from <= until
    else if actions[0].Abandon? then Stretch(actions[1..], from, until)
    else
      && (actions[0].Begin? || actions[0].Fail?)
      && from <= actions[0].at
      && Stretch(actions[1..], actions[0].at, until)
  }

  /** At no time are more than `m` calls under way. */
  ghost predicate AtMost(c: Config, m: nat, s: State, actions: seq<Action>)
    decreases actions
  {
    s.inFlight <= m && (actions == [] || AtMost(c, m, Step(c, s, actions[0]), actions[1..]))
  }

  /**
   * What the breaker has let through since `from`, `n` calls not counting the abandoned, is paid for: `Trip() - 1`
   * calls while it was closed, and `m` for every time it has been open, of which there are `p`, a timeout
   * apart.
   */
  ghost predicate Paid(c: Config, m: nat, from: real, now: real, s: State, n: int, p: nat) {
    && s.inFlight <= m
    && match s.fields.mode
       case Closed => 0 <= s.fields.failures < c.Trip() && n <= s.fields.failures + s.inFlight
       case Open =>
         && n <= c.Trip() - 1 + m * p
         && (p > 0 ==> s.fields.last - from >= Times(p - 1, c.timeout) && s.fields.last <= now)
       case HalfOpen =>
         n <= c.Trip() - 1 + m * p + s.inFlight && now - from >= Times(p, c.timeout)
  }

  lemma {:induction false} OneMore(m: nat, p: nat)
    ensures m * (p + 1) == m * p + m
  {
  }

  lemma {:induction false} BeginPays(c: Config, m: nat, from: real, now: real, s: State, n: int, p: nat, at: real)
    requires c.timeout > 0.0 && from <= now <= at
    requires Paid(c, m, from, now, s, n, p) && Step(c, s, Begin(at)).inFlight <= m
    ensures var t := Step(c, s, Begin(at));
            Paid(c, m, from, at, t, n + t.admitted - s.admitted, p)
  {
  }

  lemma {:induction false} FailPays(c: Config, m: nat, from: real, now: real, s: State, n: int, p: nat, at: real)
    returns (q: nat)
    requires c.timeout > 0.0 && from <= now <= at
    requires Paid(c, m, from, now, s, n, p)
    ensures Paid(c, m, from, at, Step(c, s, Fail(at)), n, q)
  {
    OneMore(m, p);
    q := p;
    if s.inFlight > 0 {
      if s.fields.mode == Closed {
        q := if s.fields.failures + 1 >= c.threshold then 1 else p;
      } else if s.fields.mode == HalfOpen {
        q := p + 1;
      }
    }
  }

  lemma {:induction false} AbandonPays(c: Config, m: nat, from: real, now: real, s: State, n: int, p: nat)
    requires Paid(c, m, from, now, s, n, p)
    ensures var t := Step(c, s, Abandon);
            Paid(c, m, from, now, t, n - (t.abandoned - s.abandoned), p)
  {
  }

  /** Calls let through that have not been abandoned. */
  function Kept(s: State): int {
    s.admitted - s.abandoned
  }

  /** Along the stretch everything stays paid for. */
  lemma {:induction false} StretchPays(c: Config, m: nat, from: real, now: real, s: State, n: int, p: nat,
                                       actions: seq<Action>, until: real) returns (last: real, q: nat)
    requires c.timeout > 0.0 && from <= now
    requires Paid(c, m, from, now, s, n, p)
    requires Stretch(actions, now, until) && AtMost(c, m, s, actions)
    ensures from <= last <= until
    ensures var t := Run(c, s, actions);
            Paid(c, m, from, last, t, n + Kept(t) - Kept(s), q)
    decreases actions
  {
    last, q := now, p;
    if actions != [] {
      hide Paid;
      var t := Step(c, s, actions[0]);
      if actions[0].Abandon? {
        AbandonPays(c, m, from, now, s, n, p);
      } else {
        last := actions[0].at;
        if actions[0].Begin? {
          BeginPays(c, m, from, now, s, n, p, last);
        } else {
          q := FailPays(c, m, from, now, s, n, p, last);
        }
      }
      last, q := StretchPays(c, m, from, last, t, n + Kept(t) - Kept(s), q, actions[1..], until);
    }
  }

  lemma {:induction false} PaidIsBounded(c: Config, m: nat, from: real, now: real, s: State, n: int, p: nat)
    returns (q: nat)
    requires c.timeout > 0.0 && from <= now && Paid(c, m, from, now, s, n, p)
    ensures n <= c.Trip() - 1 + m * (q + 1) && Times(q, c.timeout) <= now - from
  {
    q := if s.fields.mode == HalfOpen then p else if s.fields.mode == Open && p > 0 then p - 1 else 0;
    OneMore(m, q);
    assert p > 0 ==> m * p == m * (p - 1) + m;
  }

  lemma {:induction false} MoreTimes(m: nat, p: nat, q: nat)
    requires p <= q
    ensures m * p <= m * q
  {
  }

  /**
   * Whatever happened before, with at most `m` calls under way at a time, a stretch of length D in which
   * no call succeeds and nobody resets lets at most threshold - 1 + m * (1 + floor(D / timeout)) calls
   * through that are not abandoned. For m = 1 this is the bound for calls that do not overlap.
   */
  lemma {:induction false} OverlapBound(c: Config, before: seq<Action>, stretch: seq<Action>, m: nat,
                                        from: real, until: real)
    requires c.timeout > 0.0 && Stretch(stretch, from, until)
    requires AtMost(c, m, Run(c, Initial(), before), stretch)
    ensures var s := Run(c, Initial(), before);
            Kept(Run(c, s, stretch)) - Kept(s)
            <= c.Trip() - 1 + m * (1 + ((until - from) / c.timeout).Floor)
  {
    var s := Run(c, Initial(), before);
    RunStaysSound(c, Initial(), before);
    assert s.inFlight <= m;
    assert Paid(c, m, from, from, s, 0, 0);
    hide Paid, Stretch, AtMost, Step, Run;
    var now, p := StretchPays(c, m, from, from, s, 0, 0, stretch, until);
    var t := Run(c, s, stretch);
    var q := PaidIsBounded(c, m, from, now, t, Kept(t) - Kept(s), p);
    FitsTimes(q, c.timeout, now - from);
    FloorGrows(c.timeout, now - from, until - from);
    MoreTimes(m, q + 1, 1 + ((until - from) / c.timeout).Floor);
  }

  // ---------- The bound is reached ----------

  function Begins(m: nat, at: real): seq<Action> {
    if m == 0 then [] else [Begin(at)] + Begins(m - 1, at)
  }

  function AllFail(m: nat, at: real): seq<Action> {
    if m == 0 then [] else [Fail(at)] + AllFail(m - 1, at)
  }

  /** Failing calls one after the other. */
  function Singles(n: nat, at: real): seq<Action> {
    if n == 0 then [] else [Begin(at), Fail(at)] + Singles(n - 1, at)
  }

  /** All `m` calls fail; a timeout later `m` new ones arrive; and so on, `k` times. */
  function Pulses(c: Config, m: nat, k: nat, at: real): seq<Action> {
    if k == 0 then []
    else AllFail(m, at) + (Begins(m, at + c.timeout) + Pulses(c, m, k - 1, at + c.timeout))
  }

  /** The stretch that lets as many calls through as the bound allows. */
  function Worst(c: Config, m: nat, k: nat, at: real): seq<Action> {
    Singles(c.Trip() - 1, at) + (Begins(m, at) + Pulses(c, m, k, at))
  }

  /** A legal stretch from `s` to `t`. */
  ghost predicate Leads(c: Config, m: nat, s: State, actions: seq<Action>, t: State, from: real, until: real) {
    Run(c, s, actions) == t && AtMost(c, m, s, actions) && Stretch(actions, from, until)
  }

  lemma {:induction false} LeadsOn(c: Config, m: nat, s: State, a: seq<Action>, t: State, b: seq<Action>, u: State,
                                   from: real, mid: real, until: real)
    requires Leads(c, m, s, a, t, from, mid) && Leads(c, m, t, b, u, mid, until)
    ensures Leads(c, m, s, a + b, u, from, until)
    decreases a
  {
    hide Step;
    if a == [] {
      assert a + b == b;
      EarlierStart(b, from, mid, until);
    } else {
      assert (a + b)[1..] == a[1..] + b;
      LeadsOn(c, m, Step(c, s, a[0]), a[1..], t, b, u, if a[0].Abandon? then from else a[0].at, mid, until);
    }
  }

  lemma {:induction false} EarlierStart(actions: seq<Action>, from: real, mid: real, until: real)
    requires from <= mid && Stretch(actions, mid, until)
    ensures Stretch(actions, from, until)
    decreases actions
  {
    if actions != [] && actions[0].Abandon? {
      EarlierStart(actions[1..], from, mid, until);
    }
  }

  lemma {:induction false} BeginsLead(c: Config, m: nat, s: State, n: nat, at: real)
    requires s.inFlight + n <= m
    requires s.fields.mode != Open || at - s.fields.last >= c.timeout
    ensures var fields := if n == 0 then s.fields else StateRead(c, s.fields, at);
            var t := s.(fields := fields, inFlight := s.inFlight + n, admitted := s.admitted + n);
            Leads(c, m, s, Begins(n, at), t, at, at)
    decreases n
  {
    if n > 0 {
      assert Begins(n, at)[1..] == Begins(n - 1, at);
      BeginsLead(c, m, Step(c, s, Begin(at)), n - 1, at);
    }
  }

  /** The first failure opens the breaker, and the later ones keep it open. */
  lemma {:induction false} FailsLead(c: Config, m: nat, s: State, n: nat, at: real) returns (t: State)
    requires 0 < n <= s.inFlight <= m && s.fields.failures >= c.Trip() - 1
    ensures Leads(c, m, s, AllFail(n, at), t, at, at)
    ensures t.fields.mode == Open && t.fields.last == at && t.fields.failures >= c.Trip()
    ensures t == s.(fields := t.fields, inFlight := s.inFlight - n)
    decreases n
  {
    var u := Step(c, s, Fail(at));
    assert AllFail(n, at)[1..] == AllFail(n - 1, at);
    if n == 1 {
      t := u;
      assert AllFail(0, at) == [] && Run(c, u, []) == u;
    } else {
      t := FailsLead(c, m, u, n - 1, at);
    }
  }

  lemma {:induction false} OneSingle(c: Config, m: nat, s: State, at: real)
    requires m > 0 && s.fields.mode == Closed && s.inFlight == 0
    requires 0 <= s.fields.failures && s.fields.failures + 1 < c.Trip()
    ensures var t := s.(fields := Fields(Closed, s.fields.failures + 1, at), admitted := s.admitted + 1);
            Leads(c, m, s, [Begin(at), Fail(at)], t, at, at)
  {
    var t := Step(c, s, Begin(at));
    var u := Step(c, t, Fail(at));
    assert [Begin(at), Fail(at)][1..] == [Fail(at)] && [Fail(at)][1..] == [];
    assert Run(c, u, []) == u;
    assert Leads(c, m, t, [Fail(at)], u, at, at);
  }

  lemma {:induction false} NoSteps(c: Config, m: nat, s: State, at: real)
    requires s.inFlight <= m
    ensures Leads(c, m, s, [], s, at, at)
  {
  }

  lemma {:induction false} SinglesLead(c: Config, m: nat, s: State, n: nat, at: real)
    requires m > 0 && s.fields.mode == Closed && s.inFlight == 0
    requires 0 <= s.fields.failures && s.fields.failures + n < c.Trip()
    ensures var fields := Fields(Closed, s.fields.failures + n, if n == 0 then s.fields.last else at);
            Leads(c, m, s, Singles(n, at), s.(fields := fields, admitted := s.admitted + n), at, at)
    decreases n
  {
    hide Leads;
    if n == 0 {
      NoSteps(c, m, s, at);
      assert s.(fields := Fields(Closed, s.fields.failures, s.fields.last), admitted := s.admitted) == s;
    } else {
      var t := s.(fields := Fields(Closed, s.fields.failures + 1, at), admitted := s.admitted + 1);
      var fields := Fields(Closed, s.fields.failures + n, at);
      OneSingle(c, m, s, at);
      SinglesLead(c, m, t, n - 1, at);
      LeadsOn(c, m, s, [Begin(at), Fail(at)], t, Singles(n - 1, at),
              s.(fields := fields, admitted := s.admitted + n), at, at, at);
    }
  }

  lemma {:induction false} PulsesLead(c: Config, m: nat, s: State, k: nat, at: real) returns (t: State)
    requires m > 0 && c.timeout > 0.0 && s.inFlight == m && s.fields.failures >= c.Trip() - 1
    ensures Leads(c, m, s, Pulses(c, m, k, at), t, at, at + Times(k, c.timeout))
    ensures t.admitted == s.admitted + m * k && t.abandoned == s.abandoned
    decreases k
  {
    if k == 0 {
      t := s;
    } else {
      hide Leads, StateRead;
      var later := at + c.timeout;
      var u := FailsLead(c, m, s, m, at);
      BeginsLead(c, m, u, m, later);
      var v := u.(fields := StateRead(c, u.fields, later), inFlight := m, admitted := u.admitted + m);
      assert v.fields.failures == u.fields.failures by { ReadKeepsFailures(c, u.fields, later); }
      t := PulsesLead(c, m, v, k - 1, later);
      OneMore(m, k - 1);
      var until := at + Times(k, c.timeout);
      assert later + Times(k - 1, c.timeout) == until;
      var rest := Begins(m, later) + Pulses(c, m, k - 1, later);
      LeadsOn(c, m, u, Begins(m, later), v, Pulses(c, m, k - 1, later), t, later, later, until);
      Wait(c, m, u, rest, t, at, later, until);
      LeadsOn(c, m, s, AllFail(m, at), u, rest, t, at, at, until);
    }
  }

  lemma {:induction false} ReadKeepsFailures(c: Config, f: Fields, now: real)
    ensures StateRead(c, f, now).failures == f.failures
  {
  }

  lemma {:induction false} Wait(c: Config, m: nat, s: State, actions: seq<Action>, t: State,
                                from: real, mid: real, until: real)
    requires from <= mid && Leads(c, m, s, actions, t, mid, until)
    ensures Leads(c, m, s, actions, t, from, until)
  {
    EarlierStart(actions, from, mid, until);
    hide Run, AtMost, Stretch;
  }

  lemma {:induction false} ClosedReadsClosed(c: Config, f: Fields, now: real)
    requires f.mode == Closed
    ensures StateRead(c, f, now) == f
  {
  }

  lemma {:induction false} WorstLeads(c: Config, m: nat, k: nat, at: real) returns (t: State)
    requires m > 0 && c.timeout > 0.0
    ensures Leads(c, m, Initial(), Worst(c, m, k, at), t, at, at + Times(k, c.timeout))
    ensures t.admitted == c.Trip() - 1 + m + m * k && t.abandoned == 0
  {
    hide Leads, Singles, Begins, Pulses, Times, StateRead;
    var n: nat := c.Trip() - 1;
    var until := at + Times(k, c.timeout);
    var fields := Fields(Closed, n, if n == 0 then 0.0 else at);
    var s, u := State(fields, 0, n, 0), State(fields, m, n + m, 0);
    SinglesLead(c, m, Initial(), n, at);
    ClosedReadsClosed(c, fields, at);
    BeginsLead(c, m, s, m, at);
    t := PulsesLead(c, m, u, k, at);
    LeadsOn(c, m, s, Begins(m, at), u, Pulses(c, m, k, at), t, at, at, until);
    LeadsOn(c, m, Initial(), Singles(n, at), s, Begins(m, at) + Pulses(c, m, k, at), t, at, at, until);
  }

  /**
   * The bound is the best possible: for every configuration, every m and every number k of timeouts, a
   * stretch of length k * timeout with at most m calls under way lets exactly that many through.
   */
  lemma {:induction false} OverlapIsReached(c: Config, m: nat, k: nat, at: real)
    requires m > 0 && c.timeout > 0.0
    ensures var actions, until := Worst(c, m, k, at), at + Times(k, c.timeout);
            && Stretch(actions, at, until) && AtMost(c, m, Initial(), actions)
            && Kept(Run(c, Initial(), actions)) == c.Trip() - 1 + m * (1 + k)
            && ((until - at) / c.timeout).Floor == k
  {
    hide Leads, Worst, Times, Run, AtMost, Stretch;
    var until := at + Times(k, c.timeout);
    var t := WorstLeads(c, m, k, at);
    LeadsMeans(c, m, Initial(), Worst(c, m, k, at), t, at, until);
    OneMore(m, k);
    TimesIsProduct(k, c.timeout);
    Whole(k, c.timeout, until - at);
  }

  lemma {:induction false} LeadsMeans(c: Config, m: nat, s: State, actions: seq<Action>, t: State,
                                      from: real, until: real)
    requires Leads(c, m, s, actions, t, from, until)
    ensures Run(c, s, actions) == t && AtMost(c, m, s, actions) && Stretch(actions, from, until)
  {
  }

  lemma {:induction false} Whole(k: nat, x: real, d: real)
    requires x > 0.0 && d == k as real * x
    ensures (d / x).Floor == k
  {
    var q := d / x;
    assert q * x == d;
    ProductOrder(q, k as real, x);
    ProductOrder(k as real, q, x);
  }

  /** Once the timeout is over, every call that comes before the first answer is a probe. */
  lemma {:induction false} EveryCallIsAProbe(c: Config, s: State, m: nat, at: real)
    requires s.fields.mode == Open && at - s.fields.last >= c.timeout
    ensures Run(c, s, Begins(m, at)).admitted == s.admitted + m
  {
    BeginsLead(c, s.inFlight + m, s, m, at);
  }

  // ---------- Abandoned calls ----------

  function Abandoned(n: nat, at: real): seq<Action> {
    if n == 0 then [] else [Begin(at), Abandon] + Abandoned(n - 1, at)
  }

  /** Abandoned calls have to be left out of the bound: one at a time, any number of them gets through at once. */
  lemma {:induction false} AbandonedCallsAreUnlimited(c: Config, s: State, n: nat, at: real)
    requires s.fields.mode == Closed && s.inFlight == 0
    ensures var t := Run(c, s, Abandoned(n, at));
            && Stretch(Abandoned(n, at), at, at) && AtMost(c, 1, s, Abandoned(n, at))
            && t == s.(admitted := s.admitted + n, abandoned := s.abandoned + n)
    decreases n
  {
    if n > 0 {
      var rest := Abandoned(n - 1, at);
      var t := Step(c, s, Begin(at));
      var u := Step(c, t, Abandon);
      AbandonedCallsAreUnlimited(c, u, n - 1, at);
      assert ([Abandon] + rest)[1..] == rest;
      assert Abandoned(n, at) == [Begin(at)] + ([Abandon] + rest);
      assert ([Begin(at)] + ([Abandon] + rest))[1..] == [Abandon] + rest;
      assert Run(c, t, [Abandon] + rest) == Run(c, u, rest) && AtMost(c, 1, t, [Abandon] + rest);
      assert Stretch([Abandon] + rest, at, at);
    }
  }

  // ---------- Calls one after the other ----------

  /** A whole call, which works, breaks or is abandoned, or a reset. */
  datatype Kind = Works | Breaks | Leaves | Resets

  datatype Episode = Episode(start: real, end: real, kind: Kind)

  function ActionsOf(e: Episode): seq<Action> {
    match e.kind
    case Works => [Begin(e.start), Succeed]
    case Breaks => [Begin(e.start), Fail(e.end)]
    case Leaves => [Begin(e.start), Abandon]
    case Resets => [Clear]
  }

  function AllActions(episodes: seq<Episode>): seq<Action> {
    if episodes == [] then []
    else AllActions(episodes[..|episodes| - 1]) + ActionsOf(episodes[|episodes| - 1])
  }

  /** What an episode adds to the history: nothing if the call does not get through or is abandoned. */
  function Told(c: Config, history: seq<Event>, e: Episode): seq<Event> {
    if e.kind == Resets then history + [Event.Reset]
    else if ModeAt(c, history, e.start) == Open || e.kind == Leaves then history
    else history + [if e.kind == Works then Succeeded else Failed(e.end)]
  }

  function TellAll(c: Config, episodes: seq<Episode>): seq<Event> {
    if episodes == [] then []
    else Told(c, TellAll(c, episodes[..|episodes| - 1]), episodes[|episodes| - 1])
  }

  ghost predicate InTurn(episodes: seq<Episode>, from: real, until: real) {
    && from <= until
    && (forall i | 0 <= i < |episodes| :: from <= episodes[i].start <= episodes[i].end <= until)
    && (forall i, j | 0 <= i < j < |episodes| :: episodes[i].end <= episodes[j].start)
  }

  /** The fields that a history leaves, by a clock that has come to `now`. */
  ghost predicate Agrees(c: Config, f: Fields, history: seq<Event>, now: real) {
    && f.failures == Fails(history)
    && (f.failures > 0 ==> f.last == LastFailure(history))
    && (f.failures < c.Trip() <==> f.mode == Closed)
    && (f.mode == HalfOpen ==> now - f.last >= c.timeout)
  }

  lemma {:induction false} AgreedMode(c: Config, f: Fields, history: seq<Event>, now: real, later: real)
    requires Agrees(c, f, history, now) && now <= later
    ensures StateRead(c, f, later).mode == ModeAt(c, history, later)
    ensures Agrees(c, StateRead(c, f, later), history, later)
  {
    hide Fails, LastFailure;
  }

  lemma {:induction false} HistoryGrows(history: seq<Event>, e: Event)
    ensures Fails(history + [e]) == (if e.Failed? then Fails(history) + 1 else 0)
    ensures e.Failed? ==> LastFailure(history + [e]) == e.at
  {
    assert (history + [e])[..|history|] == history;
  }

  lemma {:induction false} RunTwo(c: Config, s: State, a: Action, b: Action)
    ensures Run(c, s, [a, b]) == Step(c, Step(c, s, a), b) && Run(c, s, [a]) == Step(c, s, a)
  {
    hide Step;
    assert [a, b][1..] == [b] && [b][1..] == [] && [a][1..] == [];
    assert Run(c, Step(c, s, a), [b]) == Run(c, Step(c, Step(c, s, a), b), []);
  }

  lemma {:induction false} RunConcat(c: Config, s: State, a: seq<Action>, b: seq<Action>)
    ensures Run(c, s, a + b) == Run(c, Run(c, s, a), b)
    decreases a
  {
    hide Step;
    if a == [] {
      assert a + b == b;
    } else {
      assert (a + b)[1..] == a[1..] + b;
      RunConcat(c, Step(c, s, a[0]), a[1..], b);
    }
  }

  /** A call that arrives while none is under way gets through unless the history says open. */
  lemma {:induction false} ArrivalAgrees(c: Config, s: State, history: seq<Event>, now: real, at: real)
    requires s.inFlight == 0 && Agrees(c, s.fields, history, now) && now <= at
    ensures var t := Step(c, s, Begin(at));
            && Agrees(c, t.fields, history, at) && t.fields.mode == ModeAt(c, history, at)
            && t.inFlight == (if t.fields.mode == Open then 0 else 1) && t.admitted - s.admitted == t.inFlight
  {
    AgreedMode(c, s.fields, history, now, at);
    hide Agrees, ModeAt, StateRead;
  }

  /** How it ends. */
  lemma {:induction false} EndingAgrees(c: Config, s: State, history: seq<Event>, now: real, a: Action, end: real)
    requires Agrees(c, s.fields, history, now) && now <= end && a in {Succeed, Fail(end), Abandon}
    requires s.inFlight == (if s.fields.mode == Open then 0 else 1)
    ensures var t := Step(c, s, a);
            && t.inFlight == 0 && t.admitted == s.admitted
            && (s.fields.mode == Open || a == Abandon ==> Agrees(c, t.fields, history, end))
            && (s.fields.mode != Open && a == Succeed ==> Agrees(c, t.fields, history + [Succeeded], end))
            && (s.fields.mode != Open && a == Fail(end) ==> Agrees(c, t.fields, history + [Failed(end)], end))
  {
    HistoryGrows(history, Succeeded);
    HistoryGrows(history, Failed(end));
    hide Fails, LastFailure;
  }

  lemma {:induction false} ClearAgrees(c: Config, s: State, history: seq<Event>, now: real, end: real)
    requires Agrees(c, s.fields, history, now)
    ensures Agrees(c, Step(c, s, Clear).fields, history + [Event.Reset], end)
  {
    HistoryGrows(history, Event.Reset);
    hide Fails, LastFailure;
  }

  /** One episode while nothing else is under way. */
  lemma {:induction false} EpisodeAgrees(c: Config, s: State, history: seq<Event>, now: real, e: Episode)
    requires s.inFlight == 0 && Agrees(c, s.fields, history, now) && now <= e.start <= e.end
    ensures var t := Run(c, s, ActionsOf(e));
            && t.inFlight == 0 && Agrees(c, t.fields, Told(c, history, e), e.end)
            && t.admitted - s.admitted
               == (if e.kind != Resets && ModeAt(c, history, e.start) != Open then 1 else 0)
  {
    if e.kind == Resets {
      RunTwo(c, s, Clear, Clear);
      ClearAgrees(c, s, history, now, e.end);
      hide Run, Agrees, ModeAt;
    } else {
      hide Step, Run, Agrees, ModeAt;
      var a := match e.kind
               case Works => Succeed
               case Breaks => Fail(e.end)
               case _ => Abandon;
      assert ActionsOf(e) == [Begin(e.start), a];
      RunTwo(c, s, Begin(e.start), a);
      ArrivalAgrees(c, s, history, now, e.start);
      EndingAgrees(c, Step(c, s, Begin(e.start)), history, e.start, a, e.end);
    }
  }

  /** Calls that do not overlap are served as by a breaker that is a function of its history. */
  lemma {:induction false} OneAtATimeFollowsHistory(c: Config, episodes: seq<Episode>, from: real, until: real)
    requires InTurn(episodes, from, until)
    ensures var s := Run(c, Initial(), AllActions(episodes));
            && s.inFlight == 0 && Agrees(c, s.fields, TellAll(c, episodes), until)
            && StateRead(c, s.fields, until).mode == ModeAt(c, TellAll(c, episodes), until)
  {
    var s := Run(c, Initial(), AllActions(episodes));
    if episodes != [] {
      hide Run, Step, Agrees, ActionsOf, Told, ModeAt, StateRead;
      var n := |episodes| - 1;
      var before, e := episodes[..n], episodes[n];
      OneAtATimeFollowsHistory(c, before, from, e.start);
      var b := Run(c, Initial(), AllActions(before));
      EpisodeAgrees(c, b, TellAll(c, before), e.start, e);
      RunConcat(c, Initial(), AllActions(before), ActionsOf(e));
      StillAgrees(c, s.fields, TellAll(c, episodes), e.end, until);
    }
    AgreedMode(c, s.fields, TellAll(c, episodes), until, until);
  }

  lemma {:induction false} StillAgrees(c: Config, f: Fields, history: seq<Event>, now: real, later: real)
    requires Agrees(c, f, history, now) && now <= later
    ensures Agrees(c, f, history, later)
  {
  }
}
