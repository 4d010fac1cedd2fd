/**
 * The webhook endpoint after parsing, as a system of interleaved steps: any number of handlers run
 * at once, deliveries are repeated, the queue fails, and a handler may die between any two steps.
 */
module Webhook {
  import opened Common

  datatype Key = Key(repo: string, pr: int, delivery: string)

  /** How publishing a job to the queue goes. A lost acknowledgement leaves the job published. */
  datatype Publication = Acknowledged | Unreachable | AckLost

  /**
   * Where a handler stands; a claim that was made is remembered to the end. `published` says whether
   * the job is in the queue, which the handler itself cannot always tell; `queued` is what it answers.
   */
  datatype Phase =
    | Checking
    | Claiming
    | Publishing(review: ReviewId)
    | Reporting(review: ReviewId, published: bool)
    | Accepted(review: ReviewId, queued: bool, published: bool)
    | Duplicate
    | Dead(claimed: Option<ReviewId>, published: bool)
  {
    function Claim(): Option<ReviewId> {
      match this
      case Publishing(r) => Some(r)
      case Reporting(r, _) => Some(r)
      case Accepted(r, _, _) => Some(r)
      case Dead(c, _) => c
      case _ => None
    }

    predicate Published() {
      match this
      case Reporting(_, p) => p
      case Accepted(_, _, p) => p
      case Dead(_, p) => p
      case _ => false
    }

    predicate Answered() {
      Accepted? || Duplicate?
    }
  }

  datatype Handler = Handler(key: Key, phase: Phase)

  /** A row of `pr_review_records`. */
  datatype Record = Record(id: ReviewId, key: Key)

  /** The shared tables, the queue, and every handler started so far. */
  datatype State = State(
    handlers: seq<Handler>,
    records: seq<Record>,
    jobs: seq<ReviewId>,
    failures: seq<ReviewId>
  )

  datatype Action =
    | Deliver(key: Key)
    | Check(handler: nat)
    | Insert(handler: nat)
    | Publish(handler: nat, outcome: Publication)
    | Report(handler: nat)
    | Crash(handler: nat)

  function Initial(): State {
    State([], [], [], [])
  }

  predicate HasRecord(records: seq<Record>, key: Key) {
    exists i :: 0 <= i < |records| && records[i].key == key
  }

  function Move(s: State, h: nat, phase: Phase): State
    requires h < |s.handlers|
  {
    s.(handlers := s.handlers[h := s.handlers[h].(phase := phase)])
  }

  /** One atomic step; an action that does not apply changes nothing. */
  function Step(s: State, a: Action): State {
    match a
    case Deliver(key) => s.(handlers := s.handlers + [Handler(key, Checking)])
    case Check(h) =>
      if h < |s.handlers| && s.handlers[h].phase.Checking? then
        Move(s, h, if HasRecord(s.records, s.handlers[h].key) then Duplicate else Claiming)
      else s
    case Insert(h) =>
      if h < |s.handlers| && s.handlers[h].phase.Claiming? then
        // The unique constraint on (repo, pr_number, delivery_uuid) decides the race.
        if HasRecord(s.records, s.handlers[h].key) then Move(s, h, Duplicate)
        else
          var id := |s.records|;
          Move(s, h, Publishing(id)).(records := s.records + [Record(id, s.handlers[h].key)])
      else s
    case Publish(h, outcome) =>
      if h < |s.handlers| && s.handlers[h].phase.Publishing? then
        var r := s.handlers[h].phase.review;
        match outcome {
          case Acknowledged => Move(s, h, Accepted(r, true, true)).(jobs := s.jobs + [r])
          case Unreachable => Move(s, h, Reporting(r, false))
          case AckLost => Move(s, h, Reporting(r, true)).(jobs := s.jobs + [r])
        }
      else s
    case Report(h) =>
      if h < |s.handlers| && s.handlers[h].phase.Reporting? then
        var r := s.handlers[h].phase.review;
        Move(s, h, Accepted(r, false, s.handlers[h].phase.published)).(failures := s.failures + [r])
      else s
    case Crash(h) =>
      if h < |s.handlers| && !s.handlers[h].phase.Answered() && !s.handlers[h].phase.Dead? then
        Move(s, h, Dead(s.handlers[h].phase.Claim(), s.handlers[h].phase.Published()))
      else s
  }

  function Run(s: State, trace: seq<Action>): State
    decreases trace
  {
    if trace == [] then s else Run(Step(s, trace[0]), trace[1..])
  }

  // ---------- The invariant ----------

  /** Review ids are row numbers, and no delivery key has two rows. */
  ghost predicate RecordsUnique(s: State) {
    && (forall i | 0 <= i < |s.records| :: s.records[i].id == i)
    && (forall i, j | 0 <= i < j < |s.records| :: s.records[i].key != s.records[j].key)
  }

  /** Claims and rows correspond one to one. */
  ghost predicate ClaimsMatchRecords(s: State) {
    && (forall h | 0 <= h < |s.handlers| && s.handlers[h].phase.Claim().Some? ::
          var r := s.handlers[h].phase.Claim().value;
          r < |s.records| && s.records[r].key == s.handlers[h].key)
    && (forall r | 0 <= r < |s.records| :: Owned(s, r))
    && (forall g, h | 0 <= g < h < |s.handlers| && s.handlers[g].phase.Claim().Some? ::
          s.handlers[g].phase.Claim() != s.handlers[h].phase.Claim())
  }

  ghost predicate Owned(s: State, r: nat) {
    exists h :: 0 <= h < |s.handlers| && s.handlers[h].phase.Claim() == Some(r)
  }

  /** Whoever answers duplicate answers truthfully. */
  ghost predicate DuplicatesTrue(s: State) {
    forall h | 0 <= h < |s.handlers| && s.handlers[h].phase.Duplicate? :: HasRecord(s.records, s.handlers[h].key)
  }

  /** What a claimed review has left behind, by the phase of its claimer. */
  ghost predicate Traces(s: State, phase: Phase) {
    phase.Claim().Some? ==>
      var r := phase.Claim().value;
      && multiset(s.jobs)[r] == (if phase.Published() then 1 else 0)
      && multiset(s.failures)[r] == (if phase.Accepted? && !phase.queued then 1 else 0)
      && (phase.Accepted? && phase.queued ==> phase.published)
  }

  /** No job and no error event for a review that nobody has claimed. */
  ghost predicate NothingInvented(s: State) {
    && (forall i | 0 <= i < |s.jobs| :: s.jobs[i] < |s.records|)
    && (forall i | 0 <= i < |s.failures| :: s.failures[i] < |s.records|)
  }

  ghost predicate Inv(s: State) {
    && RecordsUnique(s)
    && ClaimsMatchRecords(s)
    && DuplicatesTrue(s)
    && NothingInvented(s)
    && (forall h | 0 <= h < |s.handlers| :: Traces(s, s.handlers[h].phase))
  }

  // ---------- Every step keeps it ----------

  /** A handler moves without a new row: the row correspondence only needs its claim to stay. */
  lemma {:induction false} MoveKeepsClaims(s: State, h: nat, phase: Phase)
    requires Inv(s) && h < |s.handlers| && phase.Claim() == s.handlers[h].phase.Claim()
    requires phase.Duplicate? ==> HasRecord(s.records, s.handlers[h].key)
    ensures var t := Move(s, h, phase);
            RecordsUnique(t) && ClaimsMatchRecords(t) && DuplicatesTrue(t)
  {
    var t := Move(s, h, phase);
    forall r | 0 <= r < |t.records|
      ensures Owned(t, r)
    {
      assert Owned(s, r);
      var g :| 0 <= g < |s.handlers| && s.handlers[g].phase.Claim() == Some(r);
      assert t.handlers[g].phase.Claim() == Some(r);
    }
  }

  lemma {:induction false} CountAppended(list: seq<ReviewId>, r: ReviewId, x: ReviewId)
    ensures multiset(list + [r])[x] == multiset(list)[x] + (if x == r then 1 else 0)
  {
  }

  lemma {:induction false} CountUnknown(list: seq<ReviewId>, n: nat, r: ReviewId)
    requires r >= n && forall i | 0 <= i < |list| :: list[i] < n
    ensures multiset(list)[r] == 0
  {
    assert r in multiset(list) <==> r in list;
  }

  lemma {:induction false} InsertKeepsInv(s: State, h: nat)
    requires Inv(s) && h < |s.handlers| && s.handlers[h].phase.Claiming?
    requires !HasRecord(s.records, s.handlers[h].key)
    ensures Inv(Step(s, Insert(h)))
  {
    var t, id := Step(s, Insert(h)), |s.records|;
    CountUnknown(s.jobs, id, id);
    CountUnknown(s.failures, id, id);
    forall r | 0 <= r < |t.records|
      ensures Owned(t, r)
    {
      if r < id {
        assert Owned(s, r);
        var g :| 0 <= g < |s.handlers| && s.handlers[g].phase.Claim() == Some(r);
        assert t.handlers[g].phase.Claim() == Some(r);
      } else {
        assert t.handlers[h].phase.Claim() == Some(r);
      }
    }
    forall g | 0 <= g < |t.handlers| && t.handlers[g].phase.Duplicate?
      ensures HasRecord(t.records, t.handlers[g].key)
    {
      assert HasRecord(s.records, s.handlers[g].key);
      var i :| 0 <= i < |s.records| && s.records[i].key == s.handlers[g].key;
      assert t.records[i].key == t.handlers[g].key;
    }
    forall g | 0 <= g < |t.handlers|
      ensures Traces(t, t.handlers[g].phase)
    {
      assert Traces(s, s.handlers[g].phase);
    }
  }

  lemma {:induction false} DeliverKeepsInv(s: State, key: Key)
    requires Inv(s)
    ensures Inv(Step(s, Deliver(key)))
  {
    var t := Step(s, Deliver(key));
    forall r | 0 <= r < |t.records|
      ensures Owned(t, r)
    {
      assert Owned(s, r);
      var g :| 0 <= g < |s.handlers| && s.handlers[g].phase.Claim() == Some(r);
      assert t.handlers[g].phase.Claim() == Some(r);
    }
    forall g | 0 <= g < |t.handlers|
      ensures Traces(t, t.handlers[g].phase)
    {
      if g < |s.handlers| {
        assert Traces(s, s.handlers[g].phase);
      }
    }
  }

  /** A handler that keeps its claim moves on, and may publish or report that claim. */
  lemma {:induction false} ClaimerKeepsInv(s: State, h: nat, phase: Phase, jobs: seq<ReviewId>, failures: seq<ReviewId>)
    requires Inv(s) && h < |s.handlers| && phase.Claim() == s.handlers[h].phase.Claim()
    requires phase.Duplicate? ==> HasRecord(s.records, s.handlers[h].key)
    requires jobs == [] || (phase.Claim().Some? && jobs == [phase.Claim().value])
    requires failures == [] || (phase.Claim().Some? && failures == [phase.Claim().value])
    requires var t := Move(s, h, phase).(jobs := s.jobs + jobs, failures := s.failures + failures);
             Traces(t, phase)
    ensures Inv(Move(s, h, phase).(jobs := s.jobs + jobs, failures := s.failures + failures))
  {
    var t := Move(s, h, phase).(jobs := s.jobs + jobs, failures := s.failures + failures);
    MoveKeepsClaims(s, h, phase);
    assert RecordsUnique(t) && DuplicatesTrue(t);
    assert ClaimsMatchRecords(t) by {
      var m := Move(s, h, phase);
      forall r | 0 <= r < |t.records|
        ensures Owned(t, r)
      {
        assert Owned(m, r);
      }
    }
    forall g | 0 <= g < |t.handlers|
      ensures Traces(t, t.handlers[g].phase)
    {
      assert Traces(s, s.handlers[g].phase);
      if g != h && t.handlers[g].phase.Claim().Some? {
        var r := t.handlers[g].phase.Claim().value;
        assert phase.Claim() != Some(r);
        OtherCount(s.jobs, jobs, r);
        OtherCount(s.failures, failures, r);
      }
    }
  }

  lemma {:induction false} OtherCount(list: seq<ReviewId>, more: seq<ReviewId>, r: ReviewId)
    requires r !in more
    ensures multiset(list + more)[r] == multiset(list)[r]
  {
    assert multiset(list + more) == multiset(list) + multiset(more);
    assert r !in multiset(more);
  }

  lemma {:induction false} PublishKeepsInv(s: State, h: nat, outcome: Publication)
    requires Inv(s) && h < |s.handlers| && s.handlers[h].phase.Publishing?
    ensures Inv(Step(s, Publish(h, outcome)))
  {
    var r := s.handlers[h].phase.review;
    assert Traces(s, s.handlers[h].phase);
    CountAppended(s.jobs, r, r);
    assert s.jobs + [] == s.jobs && s.failures + [] == s.failures;
    match outcome {
      case Acknowledged => ClaimerKeepsInv(s, h, Accepted(r, true, true), [r], []);
      case Unreachable => ClaimerKeepsInv(s, h, Reporting(r, false), [], []);
      case AckLost => ClaimerKeepsInv(s, h, Reporting(r, true), [r], []);
    }
  }

  lemma {:induction false} ReportKeepsInv(s: State, h: nat)
    requires Inv(s) && h < |s.handlers| && s.handlers[h].phase.Reporting?
    ensures Inv(Step(s, Report(h)))
  {
    var r, published := s.handlers[h].phase.review, s.handlers[h].phase.published;
    assert Traces(s, s.handlers[h].phase);
    CountAppended(s.failures, r, r);
    assert s.jobs + [] == s.jobs;
    ClaimerKeepsInv(s, h, Accepted(r, false, published), [], [r]);
  }

  lemma {:induction false} QuietMoveKeepsInv(s: State, h: nat, phase: Phase)
    requires Inv(s) && h < |s.handlers| && phase.Claim() == s.handlers[h].phase.Claim()
    requires phase.Published() == s.handlers[h].phase.Published()
    requires !phase.Accepted? && !s.handlers[h].phase.Accepted?
    requires phase.Duplicate? ==> HasRecord(s.records, s.handlers[h].key)
    ensures Inv(Move(s, h, phase))
  {
    assert Traces(s, s.handlers[h].phase);
    assert s.jobs + [] == s.jobs && s.failures + [] == s.failures;
    ClaimerKeepsInv(s, h, phase, [], []);
  }

  lemma {:induction false} StepKeepsInv(s: State, a: Action)
    requires Inv(s)
    ensures Inv(Step(s, a))
  {
    hide Inv;
    match a {
      case Deliver(key) => DeliverKeepsInv(s, key);
      case Check(h) =>
        if h < |s.handlers| && s.handlers[h].phase.Checking? {
          QuietMoveKeepsInv(s, h, if HasRecord(s.records, s.handlers[h].key) then Duplicate else Claiming);
        }
      case Insert(h) =>
        if h < |s.handlers| && s.handlers[h].phase.Claiming? {
          if HasRecord(s.records, s.handlers[h].key) {
            QuietMoveKeepsInv(s, h, Duplicate);
          } else {
            InsertKeepsInv(s, h);
          }
        }
      case Publish(h, outcome) =>
        if h < |s.handlers| && s.handlers[h].phase.Publishing? {
          PublishKeepsInv(s, h, outcome);
        }
      case Report(h) =>
        if h < |s.handlers| && s.handlers[h].phase.Reporting? {
          ReportKeepsInv(s, h);
        }
      case Crash(h) =>
        if h < |s.handlers| && !s.handlers[h].phase.Answered() && !s.handlers[h].phase.Dead? {
          QuietMoveKeepsInv(s, h, Dead(s.handlers[h].phase.Claim(), s.handlers[h].phase.Published()));
        }
    }
  }

  lemma {:induction false} RunKeepsInv(s: State, trace: seq<Action>)
    requires Inv(s)
    ensures Inv(Run(s, trace))
    decreases trace
  {
    if trace != [] {
      StepKeepsInv(s, trace[0]);
      RunKeepsInv(Step(s, trace[0]), trace[1..]);
    }
  }

  ghost predicate Reachable(s: State) {
    exists trace :: s == Run(Initial(), trace)
  }

  lemma {:induction false} ReachableInv(s: State)
    requires Reachable(s)
    ensures Inv(s)
  {
    var trace :| s == Run(Initial(), trace);
    assert Inv(Initial());
    RunKeepsInv(Initial(), trace);
  }

  // ---------- What the endpoint promises ----------

  /** However the handlers interleave, a delivery key has at most one record and one accepting handler. */
  lemma {:induction false} OneRecordOneAcceptance(s: State)
    requires Reachable(s)
    ensures forall i, j | 0 <= i < j < |s.records| :: s.records[i].key != s.records[j].key
    ensures forall g, h | 0 <= g < h < |s.handlers| && s.handlers[g].key == s.handlers[h].key ::
              !(s.handlers[g].phase.Accepted? && s.handlers[h].phase.Accepted?)
  {
    ReachableInv(s);
    forall g, h | 0 <= g < h < |s.handlers| && s.handlers[g].key == s.handlers[h].key
      ensures !(s.handlers[g].phase.Accepted? && s.handlers[h].phase.Accepted?)
    {
      if s.handlers[g].phase.Accepted? && s.handlers[h].phase.Accepted? {
        OneClaimPerKey(s, g, h);
      }
    }
  }

  lemma {:induction false} OneClaimPerKey(s: State, g: nat, h: nat)
    requires Inv(s) && g < |s.handlers| && h < |s.handlers|
    requires s.handlers[g].key == s.handlers[h].key
    requires s.handlers[g].phase.Claim().Some? && s.handlers[h].phase.Claim().Some?
    ensures g == h
  {
    var q, r := s.handlers[g].phase.Claim().value, s.handlers[h].phase.Claim().value;
    assert s.records[q].key == s.records[r].key;
    assert q == r;
  }

  /** The handler that made the row which a duplicate answer refers to. */
  lemma {:induction false} DuplicateHasOriginal(s: State, h: nat) returns (g: nat)
    requires Inv(s) && h < |s.handlers| && s.handlers[h].phase.Duplicate?
    ensures g < |s.handlers| && s.handlers[g].key == s.handlers[h].key && s.handlers[g].phase.Claim().Some?
  {
    assert HasRecord(s.records, s.handlers[h].key);
    var i :| 0 <= i < |s.records| && s.records[i].key == s.handlers[h].key;
    assert Owned(s, i);
    g :| 0 <= g < |s.handlers| && s.handlers[g].phase.Claim() == Some(i);
  }

  /** Once all handlers of a delivery have answered, exactly one accepted and the rest said duplicate. */
  lemma {:induction false} ExactlyOneAccepts(s: State, key: Key, some: nat) returns (winner: nat)
    requires Reachable(s)
    requires some < |s.handlers| && s.handlers[some].key == key
    requires forall h | 0 <= h < |s.handlers| && s.handlers[h].key == key :: s.handlers[h].phase.Answered()
    ensures winner < |s.handlers| && s.handlers[winner].key == key && s.handlers[winner].phase.Accepted?
    ensures forall h | 0 <= h < |s.handlers| && s.handlers[h].key == key && h != winner ::
              s.handlers[h].phase.Duplicate?
  {
    ReachableInv(s);
    winner := some;
    if s.handlers[some].phase.Duplicate? {
      winner := DuplicateHasOriginal(s, some);
    }
    forall h | 0 <= h < |s.handlers| && s.handlers[h].key == key && h != winner
      ensures s.handlers[h].phase.Duplicate?
    {
      if s.handlers[h].phase.Accepted? {
        OneClaimPerKey(s, h, winner);
      }
    }
  }

  /** The step publishes the job of handler `h`. */
  predicate Publishes(s: State, a: Action, h: nat) {
    a.Publish? && a.handler == h && h < |s.handlers| && s.handlers[h].phase.Publishing?
  }

  /** How handler `h` got on with the queue: the outcome of the publish step that took effect for it. */
  function PublicationOf(trace: seq<Action>, h: nat): Option<Publication> {
    if trace == [] then None
    else
      var before, last := trace[..|trace| - 1], trace[|trace| - 1];
      var s := Run(Initial(), before);
      if Publishes(s, last, h) then Some(last.outcome) else PublicationOf(before, h)
  }

  lemma {:induction false} RunSnoc(s: State, trace: seq<Action>, a: Action)
    ensures Run(s, trace + [a]) == Step(Run(s, trace), a)
    decreases trace
  {
    hide Step;
    if trace == [] {
      assert Run(s, [a]) == Run(Step(s, a), [a][1..]);
    } else {
      assert (trace + [a])[1..] == trace[1..] + [a];
      RunSnoc(Step(s, trace[0]), trace[1..], a);
    }
  }

  /** What the phase of a living handler owes to the outcome of its publish step. */
  predicate PhaseFits(phase: Phase, outcome: Option<Publication>) {
    match phase
    case Reporting(_, published) => outcome == Some(if published then AckLost else Unreachable)
    case Accepted(_, queued, published) =>
      outcome == Some(if queued then Acknowledged else if published then AckLost else Unreachable)
    case Dead(_, _) => true
    case _ => outcome == None
  }

  lemma {:induction false} NotYetDelivered(trace: seq<Action>, h: nat)
    requires h >= |Run(Initial(), trace).handlers|
    ensures PublicationOf(trace, h) == None
  {
    if trace != [] {
      var before, last := trace[..|trace| - 1], trace[|trace| - 1];
      assert trace == before + [last];
      RunSnoc(Initial(), before, last);
      StepExtends(Run(Initial(), before), last);
      hide Step;
      NotYetDelivered(before, h);
    }
  }

  lemma {:induction false} PhaseFitsStep(s: State, a: Action, h: nat, before: Option<Publication>)
    requires h < |Step(s, a).handlers|
    requires if h < |s.handlers| then PhaseFits(s.handlers[h].phase, before) else before == None
    ensures PhaseFits(Step(s, a).handlers[h].phase, if Publishes(s, a, h) then Some(a.outcome) else before)
  {
    hide HasRecord;
  }

  lemma {:induction false} PhaseFitsOutcome(trace: seq<Action>, h: nat)
    requires h < |Run(Initial(), trace).handlers|
    ensures PhaseFits(Run(Initial(), trace).handlers[h].phase, PublicationOf(trace, h))
  {
    if trace != [] {
      hide Run, Step, PhaseFits;
      var before, last := trace[..|trace| - 1], trace[|trace| - 1];
      assert trace == before + [last];
      RunSnoc(Initial(), before, last);
      if h < |Run(Initial(), before).handlers| {
        PhaseFitsOutcome(before, h);
      } else {
        NotYetDelivered(before, h);
      }
      PhaseFitsStep(Run(Initial(), before), last, h, PublicationOf(before, h));
    }
  }

  /**
   * What an accepted handler leaves behind, by the outcome of its publish step: a job unless the queue
   * was unreachable, an error event unless the queue acknowledged. So it is exactly one of the two if
   * and only if the acknowledgement was not lost; then it is both.
   */
  lemma {:induction false} AcceptedLeavesATrace(trace: seq<Action>, h: nat)
    requires h < |Run(Initial(), trace).handlers| && Run(Initial(), trace).handlers[h].phase.Accepted?
    ensures var s, outcome := Run(Initial(), trace), PublicationOf(trace, h);
            var p := s.handlers[h].phase;
            var jobs, events := multiset(s.jobs)[p.review], multiset(s.failures)[p.review];
            && p.review < |s.records| && s.records[p.review].key == s.handlers[h].key
            && outcome.Some?
            && jobs == (if outcome.value == Unreachable then 0 else 1)
            && events == (if outcome.value == Acknowledged then 0 else 1)
            && (p.queued <==> outcome.value == Acknowledged)
            && (jobs + events == 1 <==> outcome.value != AckLost)
  {
    var s := Run(Initial(), trace);
    assert Reachable(s);
    ReachableInv(s);
    assert Traces(s, s.handlers[h].phase);
    PhaseFitsOutcome(trace, h);
    hide PublicationOf, Run;
  }

  // ---------- Every handler answers unless it crashes ----------

  /** The delivery has a row. */
  ghost predicate Recorded(s: State, key: Key) {
    exists i :: 0 <= i < |s.records| && s.records[i].key == key
  }

  ghost predicate OthersStand(s: State, t: State, h: nat) {
    && |t.handlers| == |s.handlers|
    && (forall g | 0 <= g < |s.handlers| :: t.handlers[g].key == s.handlers[g].key)
    && (forall g | 0 <= g < |s.handlers| && g != h :: t.handlers[g] == s.handlers[g])
  }

  /**
   * What the check and the insertion of a handler do: for a delivery with a row both answer duplicate and
   * leave the tables alone; without one, the check goes on and the insertion makes the row and claims it.
   */
  lemma {:induction false} RecordedMeansDuplicate(s: State, h: nat, a: Action)
    requires h < |s.handlers|
    requires (a == Check(h) && s.handlers[h].phase == Checking) || (a == Insert(h) && s.handlers[h].phase == Claiming)
    ensures var t, key := Step(s, a), s.handlers[h].key;
            && OthersStand(s, t, h) && t.jobs == s.jobs && t.failures == s.failures
            && (Recorded(s, key) ==> t.handlers[h].phase == Duplicate && t.records == s.records)
            && (!Recorded(s, key) && a == Check(h) ==> t.handlers[h].phase == Claiming && t.records == s.records)
            && (!Recorded(s, key) && a == Insert(h) ==>
                  && t.handlers[h].phase == Publishing(|s.records|)
                  && t.records == s.records + [Record(|s.records|, key)])
  {
  }

  /** A crash ends a handler that has not answered; its claim, its row and its job stay. */
  lemma {:induction false} CrashKeepsTheClaim(s: State, h: nat)
    requires h < |s.handlers| && !s.handlers[h].phase.Answered() && !s.handlers[h].phase.Dead?
    ensures var t, p := Step(s, Crash(h)), s.handlers[h].phase;
            && OthersStand(s, t, h) && t.records == s.records && t.jobs == s.jobs && t.failures == s.failures
            && t.handlers[h].phase.Dead?
            && t.handlers[h].phase.Claim() == p.Claim() && t.handlers[h].phase.Published() == p.Published()
  {
  }

  /** How far a living handler has come. */
  function Progress(phase: Phase): nat {
    match phase
    case Checking => 0
    case Claiming => 1
    case Publishing(_) => 2
    case Reporting(_, _) => 3
    case _ => 4
  }

  function PhaseAfter(trace: seq<Action>, k: nat, h: nat): Phase
    requires k <= |trace| && h < |Run(Initial(), trace[..k]).handlers|
  {
    Run(Initial(), trace[..k]).handlers[h].phase
  }

  lemma {:induction false} OneStepOn(trace: seq<Action>, k: nat, h: nat)
    requires k < |trace| && h < |Run(Initial(), trace[..k]).handlers|
    ensures Run(Initial(), trace[..k + 1]) == Step(Run(Initial(), trace[..k]), trace[k])
    ensures h < |Run(Initial(), trace[..k + 1]).handlers|
  {
    hide Step, Run;
    PrefixSnoc(trace, k);
    RunSnoc(Initial(), trace[..k], trace[k]);
    StepExtends(Run(Initial(), trace[..k]), trace[k]);
  }

  /** A step kills a handler only by crashing it, never takes it back, and its own step takes it on. */
  lemma {:induction false} StepProgresses(s: State, a: Action, h: nat)
    requires h < |s.handlers| && a != Crash(h) && !s.handlers[h].phase.Dead?
    ensures var p, q := s.handlers[h].phase, Step(s, a).handlers[h].phase;
            && !q.Dead? && Progress(p) <= Progress(q)
            && (a == Check(h) ==> Progress(q) >= 1)
            && (a == Insert(h) && Progress(p) >= 1 ==> Progress(q) >= 2)
            && (a.Publish? && a.handler == h && Progress(p) >= 2 ==> Progress(q) >= 3)
            && (a == Report(h) && Progress(p) >= 3 ==> Progress(q) == 4)
  {
    hide HasRecord;
  }

  lemma {:induction false} ProgressStays(trace: seq<Action>, first: nat, last: nat, h: nat)
    requires first <= last <= |trace| && h < |Run(Initial(), trace[..first]).handlers|
    requires !PhaseAfter(trace, first, h).Dead?
    requires forall k | first <= k < last :: trace[k] != Crash(h)
    ensures h < |Run(Initial(), trace[..last]).handlers| && !PhaseAfter(trace, last, h).Dead?
    ensures Progress(PhaseAfter(trace, first, h)) <= Progress(PhaseAfter(trace, last, h))
    decreases last
  {
    hide Step, Run, Progress;
    if last > first {
      ProgressStays(trace, first, last - 1, h);
      OneStepOn(trace, last - 1, h);
      StepProgresses(Run(Initial(), trace[..last - 1]), trace[last - 1], h);
    }
  }

  /** Along a trace a handler is dead only if a crash of it took effect. */
  lemma {:induction false} DeadOnlyByCrash(trace: seq<Action>, h: nat) returns (k: nat)
    requires h < |Run(Initial(), trace).handlers| && Run(Initial(), trace).handlers[h].phase.Dead?
    ensures k < |trace| && trace[k] == Crash(h)
    ensures h < |Run(Initial(), trace[..k]).handlers|
    ensures !PhaseAfter(trace, k, h).Dead? && !PhaseAfter(trace, k, h).Answered()
    decreases |trace|
  {
    var n := |trace| - 1;
    assert trace != [];
    var before, last := trace[..n], trace[n];
    assert trace == before + [last];
    RunSnoc(Initial(), before, last);
    var s := Run(Initial(), before);
    hide Run;
    if h < |s.handlers| && s.handlers[h].phase.Dead? {
      k := DeadOnlyByCrash(before, h);
      assert trace[..k] == before[..k];
    } else {
      k := n;
      DiesOnlyByCrash(s, last, h);
    }
  }

  lemma {:induction false} DiesOnlyByCrash(s: State, a: Action, h: nat)
    requires h < |Step(s, a).handlers| && Step(s, a).handlers[h].phase.Dead?
    requires h < |s.handlers| ==> !s.handlers[h].phase.Dead?
    ensures a == Crash(h) && h < |s.handlers| && !s.handlers[h].phase.Answered()
  {
    hide HasRecord;
  }

  /**
   * Every delivery is answered: a handler that is not crashed, and gets its check, its insertion, its
   * publication and its report in this order, whatever others do in between, has answered.
   */
  lemma {:induction false} UncrashedHandlerAnswers(trace: seq<Action>, h: nat, outcome: Publication,
                                                   a: nat, b: nat, c: nat, d: nat)
    requires a < b < c < d < |trace|
    requires trace[a] == Check(h) && trace[b] == Insert(h) && trace[c] == Publish(h, outcome) && trace[d] == Report(h)
    requires h < |Run(Initial(), trace[..a]).handlers|
    requires forall k | 0 <= k < |trace| :: trace[k] != Crash(h)
    ensures h < |Run(Initial(), trace).handlers| && Run(Initial(), trace).handlers[h].phase.Answered()
  {
    assert trace[..|trace|] == trace;
    AliveWithoutCrash(trace, a, h);
    hide Run, Step, Progress;
    StepOn(trace, a, h);
    ProgressStays(trace, a + 1, b, h);
    StepOn(trace, b, h);
    ProgressStays(trace, b + 1, c, h);
    StepOn(trace, c, h);
    ProgressStays(trace, c + 1, d, h);
    StepOn(trace, d, h);
    ProgressStays(trace, d + 1, |trace|, h);
    FarthestIsAnswered(PhaseAfter(trace, |trace|, h));
  }

  lemma {:induction false} FarthestIsAnswered(phase: Phase)
    requires Progress(phase) >= 4 && !phase.Dead?
    ensures phase.Answered()
  {
  }

  lemma {:induction false} AliveWithoutCrash(trace: seq<Action>, k: nat, h: nat)
    requires k <= |trace| && h < |Run(Initial(), trace[..k]).handlers|
    requires forall i | 0 <= i < |trace| :: trace[i] != Crash(h)
    ensures !PhaseAfter(trace, k, h).Dead?
  {
    if PhaseAfter(trace, k, h).Dead? {
      var i := DeadOnlyByCrash(trace[..k], h);
    }
  }

  lemma {:induction false} StepOn(trace: seq<Action>, k: nat, h: nat)
    requires k < |trace| && h < |Run(Initial(), trace[..k]).handlers|
    requires trace[k] != Crash(h) && !PhaseAfter(trace, k, h).Dead?
    ensures h < |Run(Initial(), trace[..k + 1]).handlers| && !PhaseAfter(trace, k + 1, h).Dead?
    ensures var p, q := Progress(PhaseAfter(trace, k, h)), Progress(PhaseAfter(trace, k + 1, h));
            && p <= q
            && (trace[k] == Check(h) ==> q >= 1)
            && (trace[k] == Insert(h) && p >= 1 ==> q >= 2)
            && (trace[k].Publish? && trace[k].handler == h && p >= 2 ==> q >= 3)
            && (trace[k] == Report(h) && p >= 3 ==> q == 4)
  {
    hide Run, Step, Progress;
    OneStepOn(trace, k, h);
    StepProgresses(Run(Initial(), trace[..k]), trace[k], h);
  }

  /** With a lost acknowledgement the answer denies a job that is in the queue. */
  lemma {:induction false} LostAckLeavesBoth(key: Key)
    ensures var s := Run(Initial(), [Deliver(key), Check(0), Insert(0), Publish(0, AckLost), Report(0)]);
            && s.handlers == [Handler(key, Accepted(0, false, true))]
            && s.jobs == [0] && s.failures == [0]
  {
    var s0 := Initial();
    var s1 := Step(s0, Deliver(key));
    var s2 := Step(s1, Check(0));
    assert s2.handlers == [Handler(key, Claiming)];
    var s3 := Step(s2, Insert(0));
    assert s3.handlers == [Handler(key, Publishing(0))];
    var s4 := Step(s3, Publish(0, AckLost));
    assert s4.handlers == [Handler(key, Reporting(0, true))];
    var s5 := Step(s4, Report(0));
    assert s5.handlers == [Handler(key, Accepted(0, false, true))];
    var t3, t4 := [Publish(0, AckLost), Report(0)], [Report(0)];
    assert Run(s5, []) == s5;
    assert Run(s4, t4) == Run(s5, t4[1..]);
    assert Run(s3, t3) == Run(s4, t3[1..]);
    var t2 := [Insert(0)] + t3;
    assert Run(s2, t2) == Run(s3, t2[1..]);
    var t1 := [Check(0)] + t2;
    assert Run(s1, t1) == Run(s2, t1[1..]);
    var t0 := [Deliver(key)] + t1;
    assert Run(s0, t0) == Run(s1, t0[1..]);
    assert t0 == [Deliver(key), Check(0), Insert(0), Publish(0, AckLost), Report(0)];
  }

  // ---------- Nothing claimed is lost ----------

  /** Rows, published jobs and error events are only ever added. */
  ghost predicate Extends(s: State, t: State) {
    && s.records <= t.records && s.jobs <= t.jobs && s.failures <= t.failures
    && |s.handlers| <= |t.handlers|
    && (forall h | 0 <= h < |s.handlers| :: s.handlers[h].key == t.handlers[h].key)
    && (forall h | 0 <= h < |s.handlers| && (s.handlers[h].phase.Answered() || s.handlers[h].phase.Dead?) ::
          t.handlers[h] == s.handlers[h])
  }

  lemma {:induction false} NothingIsLost(s: State, trace: seq<Action>)
    ensures Extends(s, Run(s, trace))
    decreases trace
  {
    if trace != [] {
      var t := Step(s, trace[0]);
      StepExtends(s, trace[0]);
      NothingIsLost(t, trace[1..]);
      ExtendsTransitive(s, t, Run(s, trace));
    }
  }

  lemma {:induction false} StepExtends(s: State, a: Action)
    ensures Extends(s, Step(s, a))
  {
  }

  lemma {:induction false} ExtendsTransitive(s: State, t: State, u: State)
    requires Extends(s, t) && Extends(t, u)
    ensures Extends(s, u)
  {
  }

  /**
   * A handler that dies after its claim blocks the delivery for good: its record stays, nobody ever
   * accepts a redelivery, and the review's job count never changes again.
   */
  lemma {:induction false} DeadClaimBlocksDelivery(s: State, trace: seq<Action>, h: nat)
    requires Reachable(s) && h < |s.handlers|
    requires s.handlers[h].phase.Dead? && s.handlers[h].phase.claimed.Some?
    ensures var t, r := Run(s, trace), s.handlers[h].phase.claimed.value;
            && r < |t.records| && t.records[r].key == s.handlers[h].key
            && multiset(t.jobs)[r] == multiset(s.jobs)[r] && multiset(t.failures)[r] == 0
            && (forall g | 0 <= g < |t.handlers| && t.handlers[g].key == s.handlers[h].key ::
                  !t.handlers[g].phase.Accepted?)
  {
    var t := Run(s, trace);
    ReachableInv(s);
    RunKeepsInv(s, trace);
    NothingIsLost(s, trace);
    assert t.handlers[h] == s.handlers[h];
    assert Traces(s, s.handlers[h].phase) && Traces(t, t.handlers[h].phase);
    forall g | 0 <= g < |t.handlers| && t.handlers[g].key == s.handlers[h].key
      ensures !t.handlers[g].phase.Accepted?
    {
      if t.handlers[g].phase.Accepted? {
        OneClaimPerKey(t, g, h);
      }
    }
  }
}
