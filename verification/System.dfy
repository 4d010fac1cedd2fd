/**
 * The whole path of a review: webhook handlers claim deliveries and publish jobs, workers and manual
 * runs execute the pipeline statement by statement, and humans decide; all of it interleaved.
 */
module System {
  import opened Common
  import Gate
  import Pipeline
  import Webhook

  /** Who runs the pipeline: a queue worker, or the manual endpoint. Neither has a GitHub client. */
  datatype Origin = Worker | Manual

  /** A worker's run that raised has its error event written or not. */
  datatype Fate = Going | Raised(written: bool) | Killed

  /** A pipeline run: `next` statements of its plan have been executed. */
  datatype Run = Run(job: Pipeline.Job, next: nat, origin: Origin, fate: Fate) {
    predicate Complete() {
      next >= |Pipeline.Plan(job)|
    }
  }

  /** `errors` are the events by which workers report jobs that raised. */
  datatype State = State(web: Webhook.State, tables: Pipeline.Tables, runs: seq<Run>, errors: seq<ReviewId>)

  datatype Action =
    | Web(action: Webhook.Action)
    | Take(job: nat, results: seq<Gate.AgentResult>, failed: seq<string>)
    | Trigger(review: ReviewId, results: seq<Gate.AgentResult>, failed: seq<string>)
    | Advance(run: nat)
    | Raise(run: nat, written: bool)
    | Kill(run: nat)
    | Judge(row: nat, approve: bool, reviewer: Option<string>)

  function Initial(): State {
    State(Webhook.Initial(), Pipeline.Tables(map[], [], [], [], []), [], [])
  }

  function Start(s: State, r: ReviewId, results: seq<Gate.AgentResult>, failed: seq<string>, origin: Origin): State {
    s.(runs := s.runs + [Run(Pipeline.Job(r, results, failed, Pipeline.Absent), 0, origin, Going)])
  }

  /** A run ends early. A worker reports the exception that ended it, if it can; nobody reports a kill. */
  function End(s: State, i: nat, fate: Fate): State
    requires i < |s.runs|
  {
    var run := s.runs[i];
    s.(runs := s.runs[i := run.(fate := fate)],
       errors := s.errors + (if fate == Raised(true) && run.origin == Worker then [run.job.review] else []))
  }

  predicate IsGoing(s: State, i: nat) {
    i < |s.runs| && s.runs[i].fate == Going && !s.runs[i].Complete()
  }

  /** One atomic step; an action that does not apply changes nothing. */
  function Step(s: State, a: Action): State {
    match a
    case Web(action) =>
      var web := Webhook.Step(s.web, action);
      // A claim is the insertion of the review's row.
      var reviews := if |web.records| > |s.web.records|
                     then s.tables.reviews[|s.web.records| := Pipeline.ReviewRow(Pipeline.Pending, None, None)]
                     else s.tables.reviews;
      s.(web := web, tables := s.tables.(reviews := reviews))
    case Take(job, results, failed) =>
      if job < |s.web.jobs| then Start(s, s.web.jobs[job], results, failed, Worker) else s
    case Trigger(review, results, failed) =>
      if review < |s.web.records| then Start(s, review, results, failed, Manual) else s
    case Advance(i) =>
      if IsGoing(s, i) then
        var run := s.runs[i];
        s.(tables := Pipeline.Apply(s.tables, Pipeline.Plan(run.job)[run.next]),
           runs := s.runs[i := run.(next := run.next + 1)])
      else s
    case Raise(i, written) => if IsGoing(s, i) then End(s, i, Raised(written)) else s
    case Kill(i) => if IsGoing(s, i) then End(s, i, Killed) else s
    case Judge(row, approve, reviewer) =>
      s.(tables := Pipeline.Decide(s.tables, row, if approve then Pipeline.Approved else Pipeline.Rejected, reviewer))
  }

  function RunAll(s: State, trace: seq<Action>): State
    decreases trace
  {
    if trace == [] then s else RunAll(Step(s, trace[0]), trace[1..])
  }

  ghost predicate Reachable(s: State) {
    exists trace :: s == RunAll(Initial(), trace)
  }

  // ---------- What the runs account for ----------

  /** The rows of review `r` that a run has added so far. */
  function Contribution(run: Run, r: ReviewId): Pipeline.Rows {
    var plan := Pipeline.Plan(run.job);
    Pipeline.Adds(if run.next < |plan| then plan[..run.next] else plan, r)
  }

  function Total(runs: seq<Run>, r: ReviewId): Pipeline.Rows {
    if runs == [] then Pipeline.Rows(0, 0, 0, 0, 0)
    else Pipeline.Plus(Total(runs[..|runs| - 1], r), Contribution(runs[|runs| - 1], r))
  }

  predicate Reported(run: Run, r: ReviewId) {
    run.job.review == r && run.origin == Worker && run.fate == Raised(true)
  }

  function ReportedRuns(runs: seq<Run>, r: ReviewId): nat {
    if runs == [] then 0
    else ReportedRuns(runs[..|runs| - 1], r) + (if Reported(runs[|runs| - 1], r) then 1 else 0)
  }

  /** Where a run without a GitHub client updates the review's status: after its findings. */
  function StatusAt(run: Run): nat {
    |run.job.Merged()|
  }

  predicate PassedStatus(run: Run, r: ReviewId) {
    run.job.review == r && run.next > StatusAt(run)
  }

  predicate NeedsHuman(run: Run) {
    run.job.Decision() != Gate.AutoPost
  }

  predicate AwaitsHuman(status: Pipeline.Status) {
    status == Pipeline.Queued || status == Pipeline.Escalated
  }

  ghost predicate SomePassed(s: State, r: ReviewId) {
    exists i :: 0 <= i < |s.runs| && PassedStatus(s.runs[i], r)
  }

  ghost predicate SomePassedForHuman(s: State, r: ReviewId) {
    exists i :: 0 <= i < |s.runs| && PassedStatus(s.runs[i], r) && NeedsHuman(s.runs[i])
  }

  /** Runs belong to claimed reviews, workers' runs to published ones, and nobody has a GitHub client. */
  ghost predicate RunsKnown(s: State) {
    forall i | 0 <= i < |s.runs| ::
      && s.runs[i].job.review < |s.web.records|
      && s.runs[i].job.client == Pipeline.Absent
      && (s.runs[i].origin == Worker ==> s.runs[i].job.review in s.web.jobs)
  }

  ghost predicate Accounted(s: State) {
    && (forall r: ReviewId :: Pipeline.RowsOf(s.tables, r) == Total(s.runs, r))
    && (forall r: ReviewId :: multiset(s.errors)[r] == ReportedRuns(s.runs, r))
  }

  /** One row per claim, and a status that tells how far the runs of the review have got. */
  ghost predicate StatusRight(s: State) {
    && (forall r: ReviewId :: r in s.tables.reviews <==> r < |s.web.records|)
    && (forall r: ReviewId | r in s.tables.reviews :: StatusOf(s, r, s.tables.reviews[r].status))
  }

  /** What the status of one review says about its runs. */
  ghost predicate StatusOf(s: State, r: ReviewId, status: Pipeline.Status) {
    && (status == Pipeline.Pending <==> !SomePassed(s, r))
    && status != Pipeline.Posted
    && (AwaitsHuman(status) ==> SomePassedForHuman(s, r))
  }

  ghost predicate Inv(s: State) {
    Webhook.Inv(s.web) && RunsKnown(s) && Accounted(s) && StatusRight(s)
  }

  // ---------- The statements of a run ----------

  /** What a run does after its status update. */
  function Late(j: Pipeline.Job): seq<Pipeline.Statement> {
    Pipeline.Queueing(j) + [Pipeline.VerdictStatement(j)]
  }

  lemma {:induction false} LateFacts(j: Pipeline.Job)
    ensures |Late(j)| == if j.Decision() != Gate.AutoPost then 2 else 1
    ensures forall i | 0 <= i < |Late(j)| :: !Late(j)[i].UpdateStatus? && Late(j)[i].review == j.review
  {
    hide Pipeline.Job.Decision, Pipeline.Job.Verdict;
  }

  lemma {:induction false} Regroup<T>(a: seq<T>, b: seq<T>, c: seq<T>, d: seq<T>, e: seq<T>)
    requires a == []
    ensures ((a + b) + (c + d)) + e == b + c + (d + e)
  {
  }

  /** Without a client a run inserts its findings, updates the status, may enqueue, and gives the verdict. */
  lemma {:induction false} PlanWithoutClient(j: Pipeline.Job)
    requires j.client == Pipeline.Absent
    ensures Pipeline.Plan(j) == Pipeline.Inserts(j) + [Pipeline.StatusUpdate(j)] + Late(j)
  {
    hide Pipeline.Job.Verdict, Pipeline.Job.Decision, Pipeline.StatusUpdate, Pipeline.Queueing, Pipeline.Inserts,
         Pipeline.VerdictStatement;
    var posting, inserts, queueing := Pipeline.Posting(j), Pipeline.Inserts(j), Pipeline.Queueing(j);
    var update, verdict := [Pipeline.StatusUpdate(j)], [Pipeline.VerdictStatement(j)];
    Regroup(posting, inserts, update, queueing, verdict);
  }

  lemma {:induction false} InsertsLength(j: Pipeline.Job)
    ensures |Pipeline.Inserts(j)| == |j.Merged()|
    ensures forall i | 0 <= i < |Pipeline.Inserts(j)| ::
              Pipeline.Inserts(j)[i].InsertFinding? && Pipeline.Inserts(j)[i].review == j.review
  {
    hide Pipeline.InsertsOf, Pipeline.Job.Merged;
  }

  lemma {:induction false} PlanLength(j: Pipeline.Job)
    requires j.client == Pipeline.Absent
    ensures var human := j.Decision() != Gate.AutoPost;
            |Pipeline.Plan(j)| == |j.Merged()| + (if human then 3 else 2)
  {
    hide Pipeline.Job.Merged, Pipeline.Job.Decision, Pipeline.StatusUpdate, Pipeline.Plan, Pipeline.Inserts, Late;
    PlanWithoutClient(j);
    InsertsLength(j);
    LateFacts(j);
  }

  lemma {:induction false} StatementAt(j: Pipeline.Job, n: nat)
    requires j.client == Pipeline.Absent && n < |Pipeline.Plan(j)|
    ensures var s := Pipeline.Plan(j)[n];
            && s.review == j.review
            && (s.UpdateStatus? <==> n == |j.Merged()|)
            && (s.UpdateStatus? ==> s == Pipeline.StatusUpdate(j))
  {
    hide Pipeline.Job.Merged, Pipeline.Job.Decision, Pipeline.StatusUpdate, Pipeline.Plan, Pipeline.Inserts, Late;
    PlanWithoutClient(j);
    InsertsLength(j);
    LateFacts(j);
    Pipeline.StatusMeans(j);
    AtSeam(Pipeline.Inserts(j), Pipeline.StatusUpdate(j), Late(j), n);
  }

  lemma {:induction false} ContributionStep(run: Run, r: ReviewId)
    requires !run.Complete()
    ensures Contribution(run.(next := run.next + 1), r)
            == Pipeline.Plus(Contribution(run, r), Pipeline.AddsOf(Pipeline.Plan(run.job)[run.next], r))
  {
    hide Pipeline.Plan, Pipeline.Adds, Pipeline.AddsOf;
    var plan, n := Pipeline.Plan(run.job), run.next;
    Pipeline.AddsConcat(plan[..n], [plan[n]], r);
    Pipeline.AddsOne(plan[n], r);
    assert plan[..n + 1] == plan[..n] + [plan[n]];
    if n + 1 == |plan| {
      assert plan[..n + 1] == plan;
    }
  }

  lemma {:induction false} NewRunAddsNothing(job: Pipeline.Job, origin: Origin, r: ReviewId)
    ensures Contribution(Run(job, 0, origin, Going), r) == Pipeline.Rows(0, 0, 0, 0, 0)
  {
    hide Pipeline.Adds, Pipeline.Body;
    var plan := Pipeline.Plan(job);
    assert plan[..0] == [];
    Pipeline.AddsOne(Pipeline.VerdictStatement(job), r);
  }

  lemma {:induction false} TotalUpdate(runs: seq<Run>, i: nat, run: Run, r: ReviewId, more: Pipeline.Rows)
    requires i < |runs|
    requires Contribution(run, r) == Pipeline.Plus(Contribution(runs[i], r), more)
    ensures Total(runs[i := run], r) == Pipeline.Plus(Total(runs, r), more)
  {
    hide Contribution;
    var n := |runs| - 1;
    if i == n {
      assert runs[i := run][..n] == runs[..n];
    } else {
      assert runs[i := run][..n] == runs[..n][i := run];
      TotalUpdate(runs[..n], i, run, r, more);
    }
  }

  lemma {:induction false} ReportedUpdate(runs: seq<Run>, i: nat, run: Run, r: ReviewId)
    requires i < |runs| && !Reported(runs[i], r)
    ensures ReportedRuns(runs[i := run], r) == ReportedRuns(runs, r) + (if Reported(run, r) then 1 else 0)
  {
    hide Reported;
    var n := |runs| - 1;
    if i == n {
      assert runs[i := run][..n] == runs[..n];
    } else {
      assert runs[i := run][..n] == runs[..n][i := run];
      ReportedUpdate(runs[..n], i, run, r);
    }
  }

  // ---------- Every step keeps the accounts ----------

  lemma {:induction false} RowsIgnoreReviews(t: Pipeline.Tables, u: Pipeline.Tables)
    requires t.findings == u.findings && t.hitl == u.hitl && t.events == u.events && t.attempts == u.attempts
    ensures forall r: ReviewId :: Pipeline.RowsOf(t, r) == Pipeline.RowsOf(u, r)
  {
  }

  lemma {:induction false} ClaimsComeOneByOne(w: Webhook.State, a: Webhook.Action)
    ensures |w.records| <= |Webhook.Step(w, a).records| <= |w.records| + 1
  {
  }

  /** A run that has passed a status update is still there when the list of runs changes elsewhere. */
  ghost predicate RunsGrow(s: State, t: State) {
    && |s.runs| <= |t.runs|
    && (forall i | 0 <= i < |s.runs| :: t.runs[i].job == s.runs[i].job && s.runs[i].next <= t.runs[i].next)
  }

  lemma {:induction false} PassedStays(s: State, t: State, r: ReviewId)
    requires RunsGrow(s, t)
    ensures SomePassed(s, r) ==> SomePassed(t, r)
    ensures SomePassedForHuman(s, r) ==> SomePassedForHuman(t, r)
  {
    hide Pipeline.Job.Merged, Pipeline.Job.Decision;
    if i :| 0 <= i < |s.runs| && PassedStatus(s.runs[i], r) {
      assert PassedStatus(t.runs[i], r);
    }
    if i :| 0 <= i < |s.runs| && PassedStatus(s.runs[i], r) && NeedsHuman(s.runs[i]) {
      assert PassedStatus(t.runs[i], r) && NeedsHuman(t.runs[i]);
    }
  }

  lemma {:induction false} StartKeepsInv(s: State, r: ReviewId, results: seq<Gate.AgentResult>, failed: seq<string>,
                                         origin: Origin)
    requires Inv(s) && r < |s.web.records| && (origin == Worker ==> r in s.web.jobs)
    ensures Inv(Start(s, r, results, failed, origin))
  {
    hide Webhook.Inv, Pipeline.RowsOf, Pipeline.Job.Merged, Pipeline.Job.Decision, Contribution;
    var t := Start(s, r, results, failed, origin);
    var n := |s.runs|;
    assert t.runs[..n] == s.runs;
    forall q: ReviewId
      ensures Total(t.runs, q) == Total(s.runs, q)
    {
      NewRunAddsNothing(t.runs[n].job, origin, q);
    }
    assert forall q: ReviewId :: ReportedRuns(t.runs, q) == ReportedRuns(s.runs, q);
    forall q: ReviewId
      ensures SomePassed(t, q) == SomePassed(s, q)
      ensures SomePassedForHuman(s, q) ==> SomePassedForHuman(t, q)
    {
      PassedStays(s, t, q);
    }
  }

  /** Two states whose runs have got equally far say the same about a status. */
  lemma {:induction false} SameProgress(s: State, t: State, r: ReviewId, status: Pipeline.Status)
    requires RunsGrow(s, t) && RunsGrow(t, s)
    ensures StatusOf(s, r, status) == StatusOf(t, r, status)
  {
    hide RunsGrow, SomePassed, SomePassedForHuman;
    PassedStays(s, t, r);
    PassedStays(t, s, r);
  }

  lemma {:induction false} WebKeepsRuns(s: State, action: Webhook.Action)
    requires RunsKnown(s)
    ensures RunsKnown(Step(s, Web(action)))
  {
    Webhook.StepExtends(s.web, action);
    hide Webhook.Step;
    var t := Step(s, Web(action));
    forall i | 0 <= i < |t.runs| && t.runs[i].origin == Worker
      ensures t.runs[i].job.review in t.web.jobs
    {
      var k :| 0 <= k < |s.web.jobs| && s.web.jobs[k] == s.runs[i].job.review;
      assert t.web.jobs[k] == s.web.jobs[k];
    }
  }

  lemma {:induction false} WebKeepsStatus(s: State, action: Webhook.Action)
    requires RunsKnown(s) && StatusRight(s)
    ensures StatusRight(Step(s, Web(action)))
  {
    ClaimsComeOneByOne(s.web, action);
    var t, n := Step(s, Web(action)), |s.web.records|;
    assert t.runs == s.runs && StatusOf(t, n, Pipeline.Pending);
    hide Webhook.Step, RunsKnown, StatusOf;
    forall r: ReviewId | r in t.tables.reviews
      ensures StatusOf(t, r, t.tables.reviews[r].status)
    {
      if r in s.tables.reviews {
        SameProgress(s, t, r, s.tables.reviews[r].status);
      }
    }
  }

  lemma {:induction false} WebKeepsInv(s: State, action: Webhook.Action)
    requires Inv(s)
    ensures Inv(Step(s, Web(action)))
  {
    Webhook.StepKeepsInv(s.web, action);
    WebKeepsRuns(s, action);
    WebKeepsStatus(s, action);
    hide Webhook.Step, Webhook.Inv, Pipeline.RowsOf, RunsKnown, StatusRight;
    RowsIgnoreReviews(s.tables, Step(s, Web(action)).tables);
  }

  lemma {:induction false} EndKeepsRuns(s: State, i: nat, fate: Fate)
    requires RunsKnown(s) && i < |s.runs|
    ensures RunsKnown(End(s, i, fate))
    ensures RunsGrow(s, End(s, i, fate)) && RunsGrow(End(s, i, fate), s)
  {
  }

  lemma {:induction false} EndKeepsAccounts(s: State, i: nat, fate: Fate)
    requires Accounted(s) && IsGoing(s, i) && fate != Going
    ensures Accounted(End(s, i, fate))
  {
    hide Pipeline.RowsOf, Total, ReportedRuns, Run.Complete;
    var t := End(s, i, fate);
    forall r: ReviewId
      ensures Pipeline.RowsOf(t.tables, r) == Total(t.runs, r)
      ensures multiset(t.errors)[r] == ReportedRuns(t.runs, r)
    {
      EndAccounts(s, i, fate, r);
    }
  }

  lemma {:induction false} EndKeepsStatus(s: State, i: nat, fate: Fate)
    requires RunsKnown(s) && StatusRight(s) && i < |s.runs|
    ensures StatusRight(End(s, i, fate))
  {
    EndKeepsRuns(s, i, fate);
    hide RunsKnown, RunsGrow, StatusOf;
    var t := End(s, i, fate);
    forall r: ReviewId | r in t.tables.reviews
      ensures StatusOf(t, r, t.tables.reviews[r].status)
    {
      SameProgress(s, t, r, t.tables.reviews[r].status);
    }
  }

  lemma {:induction false} EndKeepsInv(s: State, i: nat, fate: Fate)
    requires Inv(s) && IsGoing(s, i) && fate != Going
    ensures Inv(End(s, i, fate))
  {
    hide RunsKnown, RunsGrow, Accounted, StatusRight, Webhook.Inv;
    EndKeepsRuns(s, i, fate);
    EndKeepsAccounts(s, i, fate);
    EndKeepsStatus(s, i, fate);
  }

  lemma {:induction false} EndAccounts(s: State, i: nat, fate: Fate, r: ReviewId)
    requires Accounted(s) && IsGoing(s, i) && fate != Going
    ensures Pipeline.RowsOf(s.tables, r) == Total(End(s, i, fate).runs, r)
    ensures multiset(End(s, i, fate).errors)[r] == ReportedRuns(End(s, i, fate).runs, r)
  {
    hide Pipeline.RowsOf, Contribution, Run.Complete;
    var run := s.runs[i].(fate := fate);
    SameContribution(s.runs[i], fate, r);
    TotalUpdate(s.runs, i, run, r, Pipeline.Rows(0, 0, 0, 0, 0));
    ReportedUpdate(s.runs, i, run, r);
  }

  lemma {:induction false} SameContribution(run: Run, fate: Fate, r: ReviewId)
    ensures Contribution(run.(fate := fate), r) == Contribution(run, r)
  {
  }

  lemma {:induction false} AdvanceAccounts(s: State, i: nat)
    requires Accounted(s) && IsGoing(s, i)
    ensures Accounted(Step(s, Advance(i)))
  {
    hide Pipeline.RowsOf, Pipeline.Plan, Pipeline.Apply, Contribution, Pipeline.AddsOf, Total, ReportedRuns;
    var run, t := s.runs[i], Step(s, Advance(i));
    var statement := Pipeline.Plan(run.job)[run.next];
    forall r: ReviewId
      ensures Pipeline.RowsOf(t.tables, r) == Total(t.runs, r)
      ensures multiset(t.errors)[r] == ReportedRuns(t.runs, r)
    {
      Pipeline.ApplyAdds(s.tables, statement, r);
      ContributionStep(run, r);
      TotalUpdate(s.runs, i, t.runs[i], r, Pipeline.AddsOf(statement, r));
      ReportedUpdate(s.runs, i, t.runs[i], r);
    }
  }

  /** Only the status update of a run touches its review, and it leaves it neither pending nor posted. */
  lemma {:induction false} StatementOnReviews(t: Pipeline.Tables, j: Pipeline.Job, n: nat, r: ReviewId)
    requires j.client == Pipeline.Absent && n < |Pipeline.Plan(j)|
    ensures var u := Pipeline.Apply(t, Pipeline.Plan(j)[n]);
            && (r in u.reviews <==> r in t.reviews)
            && (r in t.reviews ==>
                  if r == j.review && n == |j.Merged()| then
                    var status := u.reviews[r].status;
                    && status != Pipeline.Pending && status != Pipeline.Posted
                    && (AwaitsHuman(status) <==> j.Decision() != Gate.AutoPost)
                  else u.reviews[r] == t.reviews[r])
  {
    StatementAt(j, n);
    Pipeline.StatusMeans(j);
    hide Gate.Decide, Gate.Merge, Pipeline.StatusUpdate, Pipeline.Plan;
  }

  /** A run that does not pass its status update makes no difference to what passed. */
  lemma {:induction false} QuietAdvance(s: State, t: State, i: nat, r: ReviewId, status: Pipeline.Status)
    requires i < |s.runs| && t.runs == s.runs[i := s.runs[i].(next := s.runs[i].next + 1)]
    requires s.runs[i].job.review != r || s.runs[i].next != StatusAt(s.runs[i])
    requires StatusOf(s, r, status)
    ensures StatusOf(t, r, status)
  {
    hide Pipeline.Job.Merged, Pipeline.Job.Decision;
    assert StatusAt(t.runs[i]) == StatusAt(s.runs[i]);
    assert PassedStatus(t.runs[i], r) ==> PassedStatus(s.runs[i], r);
    if k :| 0 <= k < |t.runs| && PassedStatus(t.runs[k], r) {
      assert PassedStatus(s.runs[k], r);
    }
    PassedStays(s, t, r);
  }

  lemma {:induction false} AdvanceStatusOf(s: State, i: nat, r: ReviewId)
    requires IsGoing(s, i) && s.runs[i].job.client == Pipeline.Absent
    requires r in s.tables.reviews ==> StatusOf(s, r, s.tables.reviews[r].status)
    ensures var t := Step(s, Advance(i));
            && (r in t.tables.reviews <==> r in s.tables.reviews)
            && (r in t.tables.reviews ==> StatusOf(t, r, t.tables.reviews[r].status))
  {
    hide StatusOf, Pipeline.Plan, Pipeline.Apply, Pipeline.Job.Merged, Pipeline.Job.Decision;
    var run := s.runs[i];
    var t := Step(s, Advance(i));
    StatementOnReviews(s.tables, run.job, run.next, r);
    if r in s.tables.reviews {
      if run.job.review == r && run.next == StatusAt(run) {
        UpdatePassed(t, i, r, t.tables.reviews[r].status);
      } else {
        QuietAdvance(s, t, i, r, s.tables.reviews[r].status);
      }
    }
  }

  lemma {:induction false} AdvanceKeepsStatus(s: State, i: nat)
    requires RunsKnown(s) && StatusRight(s) && IsGoing(s, i)
    ensures StatusRight(Step(s, Advance(i)))
  {
    assert s.runs[i].job.client == Pipeline.Absent;
    hide RunsKnown, StatusOf, Pipeline.Plan, Pipeline.Apply;
    var t := Step(s, Advance(i));
    forall r: ReviewId
      ensures r in t.tables.reviews <==> r in s.tables.reviews
      ensures r in t.tables.reviews ==> StatusOf(t, r, t.tables.reviews[r].status)
    {
      AdvanceStatusOf(s, i, r);
    }
  }

  lemma {:induction false} UpdatePassed(t: State, i: nat, r: ReviewId, status: Pipeline.Status)
    requires i < |t.runs| && PassedStatus(t.runs[i], r)
    requires status != Pipeline.Pending && status != Pipeline.Posted
    requires AwaitsHuman(status) <==> NeedsHuman(t.runs[i])
    ensures StatusOf(t, r, status)
  {
  }

  lemma {:induction false} AdvanceKeepsInv(s: State, i: nat)
    requires Inv(s) && IsGoing(s, i)
    ensures Inv(Step(s, Advance(i)))
  {
    hide Webhook.Inv, Accounted, StatusRight, Pipeline.Plan, Pipeline.Apply;
    AdvanceAccounts(s, i);
    AdvanceKeepsStatus(s, i);
  }

  lemma {:induction false} JudgeKeepsInv(s: State, row: nat, approve: bool, reviewer: Option<string>)
    requires Inv(s)
    ensures Inv(Step(s, Judge(row, approve, reviewer)))
  {
    hide Webhook.Inv, Pipeline.RowsOf, Total, ReportedRuns;
    var t := Step(s, Judge(row, approve, reviewer));
    forall r: ReviewId
      ensures Pipeline.RowsOf(t.tables, r) == Pipeline.RowsOf(s.tables, r)
    {
      Pipeline.DecideKeepsRows(s.tables, row, if approve then Pipeline.Approved else Pipeline.Rejected, reviewer, r);
    }
    assert t.tables.reviews == s.tables.reviews && t.runs == s.runs;
    assert forall r :: SomePassed(t, r) == SomePassed(s, r);
    assert forall r :: SomePassedForHuman(t, r) == SomePassedForHuman(s, r);
  }

  lemma {:induction false} JobsAreClaimed(s: State, job: nat)
    requires Inv(s) && job < |s.web.jobs|
    ensures s.web.jobs[job] < |s.web.records| && s.web.jobs[job] in s.web.jobs
  {
  }

  lemma {:induction false} StepKeepsInv(s: State, a: Action)
    requires Inv(s)
    ensures Inv(Step(s, a))
  {
    hide Inv, Pipeline.Plan, Pipeline.Apply, Pipeline.Decide, Webhook.Step;
    match a {
      case Web(action) => WebKeepsInv(s, action);
      case Take(job, results, failed) =>
        if job < |s.web.jobs| {
          JobsAreClaimed(s, job);
          StartKeepsInv(s, s.web.jobs[job], results, failed, Worker);
        }
      case Trigger(review, results, failed) =>
        if review < |s.web.records| {
          StartKeepsInv(s, review, results, failed, Manual);
        }
      case Advance(i) =>
        if IsGoing(s, i) {
          AdvanceKeepsInv(s, i);
        }
      case Raise(i, written) =>
        if IsGoing(s, i) {
          EndKeepsInv(s, i, Raised(written));
        }
      case Kill(i) =>
        if IsGoing(s, i) {
          EndKeepsInv(s, i, Killed);
        }
      case Judge(row, approve, reviewer) => JudgeKeepsInv(s, row, approve, reviewer);
    }
  }

  lemma {:induction false} RunKeepsInv(s: State, trace: seq<Action>)
    requires Inv(s)
    ensures Inv(RunAll(s, trace))
    decreases trace
  {
    hide Inv;
    if trace != [] {
      StepKeepsInv(s, trace[0]);
      RunKeepsInv(Step(s, trace[0]), trace[1..]);
    }
  }

  lemma {:induction false} InitialInv()
    ensures Inv(Initial())
  {
    forall r: ReviewId
      ensures Pipeline.RowsOf(Initial().tables, r) == Pipeline.Rows(0, 0, 0, 0, 0)
    {
      NoRows(r);
    }
  }

  lemma {:induction false} NoRows(r: ReviewId)
    ensures Pipeline.RowsOf(Pipeline.Tables(map[], [], [], [], []), r) == Pipeline.Rows(0, 0, 0, 0, 0)
  {
    assert Map(Pipeline.FindingOwner, []) == [] && Map(Pipeline.HitlOwner, []) == [];
    assert Map(Pipeline.FailedPostOwner, []) == [] && Map(Pipeline.VerdictOwner, []) == [];
    assert Map(Pipeline.Self, []) == [];
  }

  lemma {:induction false} ReachableInv(s: State)
    requires Reachable(s)
    ensures Inv(s)
  {
    var trace :| s == RunAll(Initial(), trace);
    InitialInv();
    RunKeepsInv(Initial(), trace);
  }

  // ---------- The webhook inside the system ----------

  function WebTrace(trace: seq<Action>): seq<Webhook.Action> {
    if trace == [] then []
    else (if trace[0].Web? then [trace[0].action] else []) + WebTrace(trace[1..])
  }

  lemma {:induction false} WebRunsAlone(s: State, trace: seq<Action>)
    ensures RunAll(s, trace).web == Webhook.Run(s.web, WebTrace(trace))
    decreases trace
  {
    if trace != [] {
      var t := Step(s, trace[0]);
      WebRunsAlone(t, trace[1..]);
      hide Webhook.Step, Pipeline.Apply, Pipeline.Plan, Pipeline.Decide;
      if trace[0].Web? {
        assert WebTrace(trace)[1..] == WebTrace(trace[1..]);
      } else {
        assert WebTrace(trace) == WebTrace(trace[1..]) && t.web == s.web;
      }
    }
  }

  /** Whatever workers, manual runs and humans do, the webhook behaves as it does alone. */
  lemma {:induction false} WebIsReachable(s: State)
    requires Reachable(s)
    ensures Webhook.Reachable(s.web)
  {
    var trace :| s == RunAll(Initial(), trace);
    WebRunsAlone(Initial(), trace);
  }

  // ---------- What every reachable state accounts for ----------

  function CompletedRuns(runs: seq<Run>, r: ReviewId): nat {
    if runs == [] then 0
    else
      var run := runs[|runs| - 1];
      CompletedRuns(runs[..|runs| - 1], r) + (if run.job.review == r && run.Complete() then 1 else 0)
  }

  ghost predicate NoClients(runs: seq<Run>) {
    forall i | 0 <= i < |runs| :: runs[i].job.client == Pipeline.Absent
  }

  /** The run has put its review into the human queue. */
  predicate Enqueued(run: Run, r: ReviewId) {
    run.job.review == r && NeedsHuman(run) && run.next > StatusAt(run) + 1
  }

  /** What a run has added, from how far it has got. */
  function Share(run: Run, r: ReviewId): Pipeline.Rows {
    if run.job.review != r then Pipeline.Rows(0, 0, 0, 0, 0)
    else Pipeline.Rows(if run.next < StatusAt(run) then run.next else StatusAt(run),
                       if Enqueued(run, r) then 1 else 0,
                       0,
                       if run.Complete() then 1 else 0,
                       0)
  }

  lemma {:induction false} ContributionIsShare(run: Run, r: ReviewId)
    requires run.job.client == Pipeline.Absent
    ensures Contribution(run, r) == Share(run, r)
  {
    PlanLength(run.job);
    Pipeline.PlanAdds(run.job, r);
    if !run.Complete() {
      PrefixAdds(run.job, run.next, r);
    }
    hide Pipeline.Plan, Pipeline.Adds, Gate.Decide, Gate.Merge;
  }

  /** The rows that the first `n` statements of a plan add. */
  lemma {:induction false} PrefixAdds(j: Pipeline.Job, n: nat, r: ReviewId)
    requires j.client == Pipeline.Absent && n < |Pipeline.Plan(j)|
    ensures Pipeline.Adds(Pipeline.Plan(j)[..n], r) == Share(Run(j, n, Worker, Going), r)
  {
    PlanLength(j);
    hide Pipeline.Plan, Pipeline.Adds, Share;
    if n <= |j.Merged()| {
      AmongInserts(j, n, r);
    } else if n == |j.Merged()| + 1 {
      AfterStatus(j, r);
    } else {
      BeforeVerdict(j, r);
    }
  }

  lemma {:induction false} AmongInserts(j: Pipeline.Job, n: nat, r: ReviewId)
    requires j.client == Pipeline.Absent && n <= |j.Merged()| < |Pipeline.Plan(j)|
    ensures Pipeline.Adds(Pipeline.Plan(j)[..n], r) == Share(Run(j, n, Worker, Going), r)
  {
    hide Pipeline.Plan, Pipeline.Adds, Pipeline.Job.Merged, Pipeline.Job.Decision;
    InsertsPrefix(j, n, r);
  }

  lemma {:induction false} AfterStatus(j: Pipeline.Job, r: ReviewId)
    requires j.client == Pipeline.Absent && |j.Merged()| + 1 < |Pipeline.Plan(j)|
    ensures var n := |j.Merged()| + 1;
            Pipeline.Adds(Pipeline.Plan(j)[..n], r) == Share(Run(j, n, Worker, Going), r)
  {
    hide Pipeline.Plan, Pipeline.Adds, Pipeline.Job.Merged, Pipeline.Job.Decision, Pipeline.StatusUpdate;
    var plan, n := Pipeline.Plan(j), |j.Merged()|;
    InsertsPrefix(j, n, r);
    StatementAt(j, n);
    UpdateAddsNothing(plan, n, r);
  }

  lemma {:induction false} UpdateAddsNothing(plan: seq<Pipeline.Statement>, n: nat, r: ReviewId)
    requires n < |plan| && plan[n].UpdateStatus?
    ensures Pipeline.Adds(plan[..n + 1], r) == Pipeline.Adds(plan[..n], r)
  {
    hide Pipeline.Adds;
    var before, update := plan[..n], [plan[n]];
    PrefixSnoc(plan, n);
    Pipeline.AddsConcat(before, update, r);
    Pipeline.AddsOne(plan[n], r);
  }

  lemma {:induction false} BeforeVerdict(j: Pipeline.Job, r: ReviewId)
    requires j.client == Pipeline.Absent && |j.Merged()| + 2 < |Pipeline.Plan(j)|
    ensures var n := |j.Merged()| + 2;
            Pipeline.Adds(Pipeline.Plan(j)[..n], r) == Share(Run(j, n, Worker, Going), r)
  {
    hide Pipeline.Plan, Pipeline.Body, Pipeline.Adds, Pipeline.Job.Merged, Pipeline.Job.Decision;
    PlanLength(j);
    Pipeline.BodyAdds(j, r);
    BodyPrefix(j);
  }

  lemma {:induction false} BodyPrefix(j: Pipeline.Job)
    requires j.client == Pipeline.Absent
    ensures |Pipeline.Plan(j)| == |Pipeline.Body(j)| + 1
    ensures Pipeline.Plan(j)[..|Pipeline.Body(j)|] == Pipeline.Body(j)
  {
    hide Pipeline.Body;
  }

  lemma {:induction false} InsertsPrefix(j: Pipeline.Job, n: nat, r: ReviewId)
    requires j.client == Pipeline.Absent && n <= |j.Merged()| < |Pipeline.Plan(j)|
    ensures Pipeline.Adds(Pipeline.Plan(j)[..n], r)
            == if r == j.review then Pipeline.Rows(n, 0, 0, 0, 0) else Pipeline.Rows(0, 0, 0, 0, 0)
  {
    hide Pipeline.Plan, Pipeline.Adds, Pipeline.Inserts, Pipeline.InsertsOf, Pipeline.Job.Merged, Pipeline.StatusUpdate,
         Late;
    PlanWithoutClient(j);
    InsertsLength(j);
    FirstOf(Pipeline.Inserts(j), [Pipeline.StatusUpdate(j)], Late(j), n);
    SomeInserts(j, n);
    Pipeline.InsertsAdd(j.review, j.Merged()[..n], r);
  }

  lemma {:induction false} FirstOf<T>(a: seq<T>, b: seq<T>, c: seq<T>, n: nat)
    requires n <= |a|
    ensures (a + b + c)[..n] == a[..n]
  {
  }

  lemma {:induction false} SomeInserts(j: Pipeline.Job, n: nat)
    requires n <= |j.Merged()|
    ensures |Pipeline.Inserts(j)| == |j.Merged()|
    ensures Pipeline.Inserts(j)[..n] == Pipeline.InsertsOf(j.review, j.Merged()[..n])
  {
    hide Pipeline.InsertsOf, Pipeline.Job.Merged;
  }

  /** Finding rows: each run has inserted as many as it has had time for. */
  function InsertedFindings(runs: seq<Run>, r: ReviewId): nat {
    if runs == [] then 0
    else InsertedFindings(runs[..|runs| - 1], r) + Share(runs[|runs| - 1], r).findings
  }

  function EnqueuedRuns(runs: seq<Run>, r: ReviewId): nat {
    if runs == [] then 0
    else EnqueuedRuns(runs[..|runs| - 1], r) + (if Enqueued(runs[|runs| - 1], r) then 1 else 0)
  }

  lemma {:induction false} ClientlessPrefix(runs: seq<Run>, n: nat)
    requires NoClients(runs) && n < |runs|
    ensures NoClients(runs[..n]) && runs[n].job.client == Pipeline.Absent
  {
  }

  lemma {:induction false} CountsUnfold(runs: seq<Run>, r: ReviewId)
    ensures runs == [] ==> Total(runs, r) == Pipeline.Rows(0, 0, 0, 0, 0)
                           && InsertedFindings(runs, r) == EnqueuedRuns(runs, r) == CompletedRuns(runs, r) == 0
    ensures runs != [] ==>
              var before, last := runs[..|runs| - 1], runs[|runs| - 1];
              && Total(runs, r) == Pipeline.Plus(Total(before, r), Contribution(last, r))
              && InsertedFindings(runs, r) == InsertedFindings(before, r) + Share(last, r).findings
              && EnqueuedRuns(runs, r) == EnqueuedRuns(before, r) + (if Enqueued(last, r) then 1 else 0)
              && CompletedRuns(runs, r)
                 == CompletedRuns(before, r) + (if last.job.review == r && last.Complete() then 1 else 0)
  {
    hide Contribution, Share, Run.Complete, Enqueued, Pipeline.Plus;
  }

  lemma {:induction false} TotalIsExact(runs: seq<Run>, r: ReviewId)
    requires NoClients(runs)
    ensures Total(runs, r)
            == Pipeline.Rows(InsertedFindings(runs, r), EnqueuedRuns(runs, r), 0, CompletedRuns(runs, r), 0)
  {
    hide NoClients, Total, InsertedFindings, EnqueuedRuns, CompletedRuns, Contribution, Share, Run.Complete, Enqueued;
    CountsUnfold(runs, r);
    if runs != [] {
      var n := |runs| - 1;
      ClientlessPrefix(runs, n);
      ContributionIsShare(runs[n], r);
      ShareFacts(runs[n], r);
      TotalIsExact(runs[..n], r);
    }
  }

  lemma {:induction false} ShareFacts(run: Run, r: ReviewId)
    ensures var share := Share(run, r);
            && share.hitl == (if Enqueued(run, r) then 1 else 0)
            && share.verdicts == (if run.job.review == r && run.Complete() then 1 else 0)
            && share.failedPosts == share.posts == 0
  {
    hide Run.Complete, StatusAt;
  }

  lemma {:induction false} NothingForOthers(runs: seq<Run>, r: ReviewId)
    requires forall i | 0 <= i < |runs| :: runs[i].job.review != r
    ensures InsertedFindings(runs, r) == EnqueuedRuns(runs, r) == CompletedRuns(runs, r) == 0
  {
    hide Run.Complete, StatusAt;
    if runs != [] {
      NothingForOthers(runs[..|runs| - 1], r);
    }
  }

  /**
   * In every reachable state, however everything is interleaved, the tables are exactly what the runs
   * of a review have got through: a finding row for each insertion, a HITL row for each run past its
   * enqueueing, a verdict for each completed run, and an error event for each worker's run that raised and
   * whose event could be written. Killed runs and manual runs that raise leave no event. Nothing is ever
   * posted, and a review that was never claimed has no rows.
   */
  lemma {:induction false} TablesCountRuns(s: State, r: ReviewId)
    requires Reachable(s)
    ensures var rows := Pipeline.RowsOf(s.tables, r);
            && rows.findings == InsertedFindings(s.runs, r)
            && rows.hitl == EnqueuedRuns(s.runs, r)
            && rows.verdicts == CompletedRuns(s.runs, r)
            && multiset(s.errors)[r] == ReportedRuns(s.runs, r)
            && rows.posts == rows.failedPosts == 0
            && (r >= |s.web.records| ==> rows == Pipeline.Rows(0, 0, 0, 0, 0) && r !in s.tables.reviews)
  {
    ReachableInv(s);
    hide Pipeline.RowsOf, Total, Webhook.Inv;
    assert Pipeline.RowsOf(s.tables, r) == Total(s.runs, r);
    TotalIsExact(s.runs, r);
    if r >= |s.web.records| {
      NothingForOthers(s.runs, r);
    }
  }

  ghost predicate AllComplete(runs: seq<Run>, r: ReviewId) {
    forall i | 0 <= i < |runs| && runs[i].job.review == r :: runs[i].Complete()
  }

  /** What the runs of review `r` are worth once all of them have completed. */
  function Worth(runs: seq<Run>, r: ReviewId): Pipeline.Rows {
    if runs == [] then Pipeline.Rows(0, 0, 0, 0, 0)
    else
      var job := runs[|runs| - 1].job;
      Pipeline.Plus(Worth(runs[..|runs| - 1], r),
                    if job.review == r then Pipeline.Footprint(job) else Pipeline.Rows(0, 0, 0, 0, 0))
  }

  lemma {:induction false} CompleteContribution(run: Run, r: ReviewId)
    requires run.job.client == Pipeline.Absent && (run.job.review == r ==> run.Complete())
    ensures Contribution(run, r)
            == if run.job.review == r then Pipeline.Footprint(run.job) else Pipeline.Rows(0, 0, 0, 0, 0)
  {
    if run.job.review == r {
      Pipeline.PlanAdds(run.job, r);
    } else {
      ContributionIsShare(run, r);
    }
    hide Pipeline.Plan, Pipeline.Adds, Gate.Decide, Gate.Merge;
  }

  lemma {:induction false} TotalWhenComplete(runs: seq<Run>, r: ReviewId)
    requires NoClients(runs) && AllComplete(runs, r)
    ensures Total(runs, r) == Worth(runs, r)
  {
    if runs != [] {
      CompleteContribution(runs[|runs| - 1], r);
      hide Contribution, Run.Complete, Pipeline.Footprint;
      TotalWhenComplete(runs[..|runs| - 1], r);
    }
  }

  /**
   * Once all runs of a review have completed, in whatever order their statements were interleaved, its
   * finding rows are the merged findings of those runs, and it has one HITL row for each that did not
   * end in `auto_post`.
   */
  lemma {:induction false} CompletedRunsAddUp(s: State, r: ReviewId)
    requires Reachable(s) && AllComplete(s.runs, r)
    ensures Pipeline.RowsOf(s.tables, r) == Worth(s.runs, r)
  {
    ReachableInv(s);
    hide Pipeline.RowsOf, Total, Webhook.Inv, Contribution, Worth, Run.Complete;
    assert Pipeline.RowsOf(s.tables, r) == Total(s.runs, r);
    TotalWhenComplete(s.runs, r);
  }

  // ---------- Nothing gets stuck before the humans, with one exception ----------

  /** The run has said that a human must decide, and has not yet queued the review for one. */
  predicate Strands(run: Run, r: ReviewId) {
    run.job.review == r && NeedsHuman(run) && run.next == StatusAt(run) + 1
  }

  lemma {:induction false} EnqueuedCounts(runs: seq<Run>, i: nat, r: ReviewId)
    requires i < |runs| && Enqueued(runs[i], r)
    ensures EnqueuedRuns(runs, r) > 0
  {
    hide Enqueued;
    if i < |runs| - 1 {
      EnqueuedCounts(runs[..|runs| - 1], i, r);
    }
  }

  lemma {:induction false} EnqueuedWitness(runs: seq<Run>, r: ReviewId) returns (i: nat)
    requires EnqueuedRuns(runs, r) > 0
    ensures i < |runs| && Enqueued(runs[i], r)
  {
    hide Enqueued;
    i := |runs| - 1;
    if !Enqueued(runs[i], r) {
      i := EnqueuedWitness(runs[..i], r);
    }
  }

  lemma {:induction false} SomeRunEnqueued(runs: seq<Run>, r: ReviewId)
    ensures EnqueuedRuns(runs, r) > 0 <==> exists i :: 0 <= i < |runs| && Enqueued(runs[i], r)
  {
    hide Enqueued, EnqueuedRuns;
    if i :| 0 <= i < |runs| && Enqueued(runs[i], r) {
      EnqueuedCounts(runs, i, r);
    }
    if EnqueuedRuns(runs, r) > 0 {
      var i := EnqueuedWitness(runs, r);
    }
  }

  /**
   * The status of a claimed review: pending exactly until some run has updated it, and never posted. The
   * review is in the human queue if and only if some run of it has got past its enqueueing. So a status
   * that says a human must decide is true of the queue, unless every run that said so stands or was
   * stopped exactly between the status update and the HITL row.
   */
  lemma {:induction false} StatusIsTruthful(s: State, r: ReviewId)
    requires Reachable(s) && r < |s.web.records|
    ensures r in s.tables.reviews
    ensures var status, hitl := s.tables.reviews[r].status, Pipeline.RowsOf(s.tables, r).hitl;
            && (status == Pipeline.Pending <==> !SomePassed(s, r))
            && status != Pipeline.Posted
            && (hitl > 0 <==> exists i :: 0 <= i < |s.runs| && Enqueued(s.runs[i], r))
            && (AwaitsHuman(status) ==>
                  && SomePassedForHuman(s, r)
                  && (hitl == 0 <==> forall i | 0 <= i < |s.runs| && PassedStatus(s.runs[i], r)
                                                && NeedsHuman(s.runs[i]) :: Strands(s.runs[i], r)))
  {
    ReachableInv(s);
    assert StatusOf(s, r, s.tables.reviews[r].status);
    hide Inv, Reachable, Pipeline.RowsOf, Pipeline.Job.Merged, Pipeline.Job.Decision;
    TablesCountRuns(s, r);
    SomeRunEnqueued(s.runs, r);
    forall i | 0 <= i < |s.runs|
      ensures Enqueued(s.runs[i], r)
              <==> PassedStatus(s.runs[i], r) && NeedsHuman(s.runs[i]) && !Strands(s.runs[i], r)
    {
    }
  }

  /** The failed agents' job, which has no findings and needs a human. */
  lemma {:induction false} FailedJob(r: ReviewId, error: string)
    ensures var job := Pipeline.Job(r, [], [error], Pipeline.Absent);
            && job.Merged() == [] && job.Decision() == Gate.ApprovalQueue
            && |Pipeline.Plan(job)| == 3
            && Pipeline.Plan(job)[0] == Pipeline.UpdateStatus(r, Pipeline.Queued, 0.0, None)
  {
    var job := Pipeline.Job(r, [], [error], Pipeline.Absent);
    Gate.CollectedNone();
    assert job.Merged() == [];
    assert Pipeline.Posting(job) == [] && Pipeline.Inserts(job) == [];
    assert Pipeline.Plan(job) == Pipeline.Filing(job) + [Pipeline.VerdictStatement(job)];
  }

  lemma {:induction false} RunAllSnoc(s: State, trace: seq<Action>, a: Action)
    ensures RunAll(s, trace + [a]) == Step(RunAll(s, trace), a)
    decreases trace
  {
    hide Step;
    if trace == [] {
      assert RunAll(Step(s, a), []) == Step(s, a);
    } else {
      assert (trace + [a])[1..] == trace[1..] + [a];
      RunAllSnoc(Step(s, trace[0]), trace[1..], a);
    }
  }

  lemma {:induction false} StepStaysReachable(s: State, a: Action)
    requires Reachable(s)
    ensures Reachable(Step(s, a))
  {
    hide Step;
    var trace :| s == RunAll(Initial(), trace);
    RunAllSnoc(Initial(), trace, a);
  }

  /** The state after one delivery has been claimed. */
  lemma {:induction false} OneClaim(key: Webhook.Key) returns (s: State)
    ensures Reachable(s) && |s.web.records| == 1 && s.runs == []
    ensures 0 in s.tables.reviews && s.tables.hitl == []
  {
    var s0 := Initial();
    assert s0 == RunAll(s0, []);
    StepStaysReachable(s0, Web(Webhook.Deliver(key)));
    var s1 := Step(s0, Web(Webhook.Deliver(key)));
    StepStaysReachable(s1, Web(Webhook.Check(0)));
    var s2 := Step(s1, Web(Webhook.Check(0)));
    assert s2.web.handlers == [Webhook.Handler(key, Webhook.Claiming)];
    StepStaysReachable(s2, Web(Webhook.Insert(0)));
    s := Step(s2, Web(Webhook.Insert(0)));
  }

  /** A run by hand over a failed review, its first statement, and its end. */
  lemma {:induction false} QueuedWhenKilled(claimed: State, error: string)
    requires |claimed.web.records| == 1 && claimed.runs == []
    requires 0 in claimed.tables.reviews && claimed.tables.hitl == []
    ensures var s := Step(Step(Step(claimed, Trigger(0, [], [error])), Advance(0)), Kill(0));
            && 0 in s.tables.reviews && |s.runs| == 1 && !IsGoing(s, 0)
            && s.tables.reviews[0].status == Pipeline.Queued && s.tables.hitl == []
  {
    FailedJob(0, error);
    hide Pipeline.Plan, Gate.Decide, Gate.Merge;
    var started := Step(claimed, Trigger(0, [], [error]));
    assert started.tables == claimed.tables && |started.runs| == 1 && IsGoing(started, 0);
    var updated := Step(started, Advance(0));
    assert updated.tables.hitl == [] && 0 in updated.tables.reviews && |updated.runs| == 1;
    assert updated.tables.reviews[0].status == Pipeline.Queued && IsGoing(updated, 0);
  }

  /** The exception is real: a run killed at that point leaves a queued review that no human sees. */
  lemma {:induction false} KilledRunStrandsItsReview(key: Webhook.Key, error: string) returns (s: State)
    ensures Reachable(s) && 0 in s.tables.reviews && |s.runs| == 1 && !IsGoing(s, 0)
    ensures s.tables.reviews[0].status == Pipeline.Queued && s.tables.hitl == []
  {
    var claimed := OneClaim(key);
    hide Reachable, Step;
    StepStaysReachable(claimed, Trigger(0, [], [error]));
    var started := Step(claimed, Trigger(0, [], [error]));
    StepStaysReachable(started, Advance(0));
    var updated := Step(started, Advance(0));
    StepStaysReachable(updated, Kill(0));
    s := Step(updated, Kill(0));
    QueuedWhenKilled(claimed, error);
  }

  predicate CompletedForHuman(run: Run, r: ReviewId) {
    run.job.review == r && NeedsHuman(run) && run.Complete()
  }

  /** The run has queued its review, and only its verdict is missing. */
  predicate LacksVerdict(run: Run, r: ReviewId) {
    run.job.review == r && NeedsHuman(run) && run.next == StatusAt(run) + 2
  }

  function CompletedHumanRuns(runs: seq<Run>, r: ReviewId): nat {
    if runs == [] then 0
    else CompletedHumanRuns(runs[..|runs| - 1], r) + (if CompletedForHuman(runs[|runs| - 1], r) then 1 else 0)
  }

  function RunsLackingVerdict(runs: seq<Run>, r: ReviewId): nat {
    if runs == [] then 0
    else RunsLackingVerdict(runs[..|runs| - 1], r) + (if LacksVerdict(runs[|runs| - 1], r) then 1 else 0)
  }

  lemma {:induction false} EnqueuedMeans(run: Run, r: ReviewId)
    requires run.job.client == Pipeline.Absent
    ensures Enqueued(run, r) <==> CompletedForHuman(run, r) || LacksVerdict(run, r)
    ensures !(CompletedForHuman(run, r) && LacksVerdict(run, r))
  {
    PlanLength(run.job);
    hide Pipeline.Plan, Gate.Decide, Gate.Merge;
  }

  lemma {:induction false} EnqueuedRunsSplit(runs: seq<Run>, r: ReviewId)
    requires NoClients(runs)
    ensures EnqueuedRuns(runs, r) == CompletedHumanRuns(runs, r) + RunsLackingVerdict(runs, r)
  {
    if runs != [] {
      hide Enqueued, CompletedForHuman, LacksVerdict;
      EnqueuedMeans(runs[|runs| - 1], r);
      EnqueuedRunsSplit(runs[..|runs| - 1], r);
    }
  }

  /**
   * Every completed run that needs a human has put a HITL row of its own into the queue; the only other
   * rows are those of runs that have enqueued and lack nothing but their verdict.
   */
  lemma {:induction false} OneRowPerHumanRun(s: State, r: ReviewId)
    requires Reachable(s)
    ensures Pipeline.RowsOf(s.tables, r).hitl == CompletedHumanRuns(s.runs, r) + RunsLackingVerdict(s.runs, r)
  {
    ReachableInv(s);
    assert NoClients(s.runs);
    hide Inv, Reachable, NoClients, Pipeline.RowsOf;
    TablesCountRuns(s, r);
    EnqueuedRunsSplit(s.runs, r);
  }

  // ---------- Deliveries and runs ----------

  /** All runs for one delivery are runs of one review, which one handler claimed. */
  lemma {:induction false} OneReviewPerDelivery(s: State, i: nat, j: nat) returns (h: nat)
    requires Reachable(s) && i < |s.runs| && j < |s.runs|
    requires s.runs[i].job.review < |s.web.records| && s.runs[j].job.review < |s.web.records|
    requires s.web.records[s.runs[i].job.review].key == s.web.records[s.runs[j].job.review].key
    ensures s.runs[i].job.review == s.runs[j].job.review
    ensures h < |s.web.handlers| && s.web.handlers[h].phase.Claim() == Some(s.runs[i].job.review)
    ensures s.web.handlers[h].key == s.web.records[s.runs[i].job.review].key
  {
    ReachableInv(s);
    hide Accounted, StatusRight;
    var r := s.runs[i].job.review;
    assert Webhook.Owned(s.web, r);
    h :| 0 <= h < |s.web.handlers| && s.web.handlers[h].phase.Claim() == Some(r);
  }

  lemma {:induction false} StepExtendsHitl(s: State, a: Action)
    ensures Pipeline.HitlExtends(s.tables, Step(s, a).tables)
  {
    hide Pipeline.HitlExtends, Pipeline.Apply, Pipeline.Plan, Pipeline.Decide, Webhook.Step;
    var t := Step(s, a);
    if a.Judge? {
      DecideExtendsHitl(s.tables, a.row, if a.approve then Pipeline.Approved else Pipeline.Rejected, a.reviewer);
    } else {
      if a.Advance? && IsGoing(s, a.run) {
        Pipeline.ApplyExtendsHitl(s.tables, Pipeline.Plan(s.runs[a.run].job)[s.runs[a.run].next]);
      }
      LongerHitl(s.tables, t.tables);
    }
  }

  lemma {:induction false} LongerHitl(t: Pipeline.Tables, u: Pipeline.Tables)
    requires t.hitl <= u.hitl
    ensures Pipeline.HitlExtends(t, u)
  {
  }

  lemma {:induction false} DecideExtendsHitl(t: Pipeline.Tables, row: nat, state: Pipeline.HitlState,
                                             reviewer: Option<string>)
    ensures Pipeline.HitlExtends(t, Pipeline.Decide(t, row, state, reviewer))
  {
  }

  /** A human decision in the system is the one of the human queue, and touches nothing else. */
  lemma {:induction false} JudgeDecides(s: State, row: nat, approve: bool, reviewer: Option<string>)
    ensures Step(s, Judge(row, approve, reviewer))
            == s.(tables := Pipeline.Do(s.tables, Pipeline.Judge(row, approve, reviewer)))
  {
    hide Pipeline.Decide;
  }

  /** What a human has decided stays decided, whatever happens next. */
  lemma {:induction false} DecisionsAreFinal(s: State, trace: seq<Action>)
    ensures Pipeline.HitlExtends(s.tables, RunAll(s, trace).tables)
    decreases trace
  {
    hide Step, Pipeline.HitlExtends;
    if trace == [] {
      Pipeline.HitlReflexive(s.tables);
    } else {
      var t := Step(s, trace[0]);
      StepExtendsHitl(s, trace[0]);
      DecisionsAreFinal(t, trace[1..]);
      Pipeline.HitlTransitive(s.tables, t.tables, RunAll(t, trace[1..]).tables);
    }
  }

  // ---------- Claimed reviews can always be finished ----------

  ghost predicate NoManualRun(s: State, r: ReviewId) {
    forall i | 0 <= i < |s.runs| && s.runs[i].job.review == r :: s.runs[i].origin != Manual
  }

  /** Workers leave a review alone whose job was never published. */
  lemma {:induction false} UnpublishedHasNoWorker(s: State, h: nat, i: nat)
    requires Inv(s) && h < |s.web.handlers| && i < |s.runs|
    requires s.web.handlers[h].phase.Claim() == Some(s.runs[i].job.review)
    requires !s.web.handlers[h].phase.Published()
    ensures s.runs[i].origin == Manual
  {
    hide Accounted, StatusRight;
    var r := s.runs[i].job.review;
    assert Webhook.Traces(s.web, s.web.handlers[h].phase);
    assert r in s.web.jobs ==> r in multiset(s.web.jobs);
  }

  /**
   * A review whose handler died before its job was published stays pending exactly until a run started
   * by hand updates its status.
   */
  lemma {:induction false} DeadClaimWaitsForAManualRun(s: State, h: nat, r: ReviewId)
    requires Reachable(s) && h < |s.web.handlers|
    requires s.web.handlers[h].phase.Dead? && s.web.handlers[h].phase.Claim() == Some(r)
    requires !s.web.handlers[h].phase.Published()
    ensures r in s.tables.reviews
    ensures s.tables.reviews[r].status == Pipeline.Pending
            <==> forall i | 0 <= i < |s.runs| && s.runs[i].origin == Manual :: !PassedStatus(s.runs[i], r)
    ensures NoManualRun(s, r) ==> s.tables.reviews[r].status == Pipeline.Pending
  {
    ReachableInv(s);
    ClaimHasRecord(s, h, r);
    StatusIsTruthful(s, r);
    hide Inv, Reachable, Pipeline.RowsOf, AwaitsHuman, Webhook.Phase.Published, StatusAt;
    forall i | 0 <= i < |s.runs| && s.runs[i].job.review == r
      ensures s.runs[i].origin == Manual
    {
      UnpublishedHasNoWorker(s, h, i);
    }
  }

  lemma {:induction false} ClaimHasRecord(s: State, h: nat, r: ReviewId)
    requires Inv(s) && h < |s.web.handlers| && s.web.handlers[h].phase.Claim() == Some(r)
    ensures r < |s.web.records| && r in s.tables.reviews
  {
    hide Accounted, RunsKnown;
  }

  function Advances(run: nat, n: nat): seq<Action> {
    if n == 0 then [] else Advances(run, n - 1) + [Advance(run)]
  }

  /** A run that nobody disturbs executes its plan statement by statement. */
  lemma {:induction false} RunAdvances(s: State, run: Run, n: nat)
    requires run.next == 0 && run.fate == Going && n <= |Pipeline.Plan(run.job)|
    ensures var started := s.(runs := s.runs + [run]);
            RunAll(started, Advances(|s.runs|, n))
            == s.(tables := Pipeline.Exec(s.tables, Pipeline.Plan(run.job)[..n]), runs := s.runs + [run.(next := n)])
  {
    hide Pipeline.Plan, Pipeline.Exec, Pipeline.Apply;
    var plan, i := Pipeline.Plan(run.job), |s.runs|;
    var started := s.(runs := s.runs + [run]);
    if n == 0 {
      NothingExecuted(s.tables, plan);
      assert run.(next := 0) == run;
    } else {
      RunAdvances(s, run, n - 1);
      RunAllSnoc(started, Advances(i, n - 1), Advance(i));
      Pipeline.ExecSnoc(s.tables, plan[..n - 1], plan[n - 1]);
      PrefixSnoc(plan, n - 1);
      var before := s.(tables := Pipeline.Exec(s.tables, plan[..n - 1]), runs := s.runs + [run.(next := n - 1)]);
      assert IsGoing(before, i);
      assert before.runs[i := run.(next := n)] == s.runs + [run.(next := n)];
    }
  }

  lemma {:induction false} NothingExecuted(t: Pipeline.Tables, plan: seq<Pipeline.Statement>)
    ensures Pipeline.Exec(t, plan[..0]) == t
  {
  }

  /** Starting a run by hand and leaving it alone. */
  function ByHand(s: State, r: ReviewId, results: seq<Gate.AgentResult>, failed: seq<string>): seq<Action> {
    var job := Pipeline.Job(r, results, failed, Pipeline.Absent);
    [Trigger(r, results, failed)] + Advances(|s.runs|, |Pipeline.Plan(job)|)
  }

  /**
   * Whatever has happened to a claimed review, a run by hand that is left alone finishes it: its status and
   * confidence are those of this run, it has one verdict more, this run's findings, and a HITL row more if
   * it needs a human; nothing else changes.
   */
  lemma {:induction false} ClaimedReviewCanBeFinished(s: State, r: ReviewId, results: seq<Gate.AgentResult>,
                                                      failed: seq<string>) returns (t: State)
    requires Reachable(s) && r < |s.web.records|
    ensures t == RunAll(s, ByHand(s, r, results, failed)) && Reachable(t)
    ensures var job := Pipeline.Job(r, results, failed, Pipeline.Absent);
            var status := Pipeline.StatusUpdate(job);
            && t.web == s.web && t.errors == s.errors
            && t.runs == s.runs + [Run(job, |Pipeline.Plan(job)|, Manual, Going)]
            && r in s.tables.reviews && status.UpdateStatus?
            && t.tables.reviews
               == s.tables.reviews[r := Pipeline.ReviewRow(status.status, Some(job.Verdict().confidence),
                                                           s.tables.reviews[r].githubReviewId)]
            && (AwaitsHuman(status.status) <==> job.Decision() != Gate.AutoPost)
            && status.status != Pipeline.Pending
            && Pipeline.RowsOf(t.tables, r) == Pipeline.Plus(Pipeline.RowsOf(s.tables, r), Pipeline.Footprint(job))
  {
    var job := Pipeline.Job(r, results, failed, Pipeline.Absent);
    ClaimedHasRow(s, r);
    hide Reachable, RunAll, Pipeline.Plan, Pipeline.Exec, Pipeline.StatusUpdate, Pipeline.RowsOf, Pipeline.Footprint,
         Pipeline.Job.Decision, Pipeline.Job.Verdict, ByHand;
    t := RunAll(s, ByHand(s, r, results, failed));
    StaysReachable(s, ByHand(s, r, results, failed));
    RunsByHand(s, r, results, failed);
    PlanFinishes(s.tables, job);
  }

  /**
   * A published job that a worker takes and that nothing disturbs leaves the tables of its whole plan, and
   * counts as a completed worker's run.
   */
  lemma {:induction false} PublishedJobCanBeFinished(s: State, k: nat, results: seq<Gate.AgentResult>,
                                                     failed: seq<string>) returns (t: State)
    requires Reachable(s) && k < |s.web.jobs|
    ensures var job := Pipeline.Job(s.web.jobs[k], results, failed, Pipeline.Absent);
            var plan := Pipeline.Plan(job);
            && t == RunAll(s, [Take(k, results, failed)] + Advances(|s.runs|, |plan|)) && Reachable(t)
            && t == s.(tables := Pipeline.Exec(s.tables, plan), runs := s.runs + [Run(job, |plan|, Worker, Going)])
            && job.review in s.tables.reviews
  {
    hide Reachable, Inv, Pipeline.Plan, Pipeline.Exec, Advances, RunAll;
    var job := Pipeline.Job(s.web.jobs[k], results, failed, Pipeline.Absent);
    var plan, run := Pipeline.Plan(job), Run(job, 0, Worker, Going);
    var trace := [Take(k, results, failed)] + Advances(|s.runs|, |plan|);
    t := RunAll(s, trace);
    StaysReachable(s, trace);
    RunHead(s, Take(k, results, failed), Advances(|s.runs|, |plan|));
    RunAdvances(s, run, |plan|);
    assert plan[..|plan|] == plan;
    ReachableInv(s);
    JobsAreClaimed(s, k);
    ClaimedHasRow(s, s.web.jobs[k]);
  }

  /** A run under way that raises stops there; only a worker's leaves an event, and only if it can be written. */
  lemma {:induction false} RaisingLeavesOneEvent(s: State, i: nat, written: bool)
    requires i < |s.runs| && s.runs[i].fate == Going && s.runs[i].next < |Pipeline.Plan(s.runs[i].job)|
    ensures var t := Step(s, Raise(i, written));
            && t.web == s.web && t.tables == s.tables
            && t.runs == s.runs[i := s.runs[i].(fate := Raised(written))]
            && t.errors == s.errors
                           + (if written && s.runs[i].origin == Worker then [s.runs[i].job.review] else [])
            && !IsGoing(t, i)
  {
    hide Pipeline.Plan;
  }

  lemma {:induction false} ClaimedHasRow(s: State, r: ReviewId)
    requires Reachable(s) && r < |s.web.records|
    ensures r in s.tables.reviews
  {
    ReachableInv(s);
  }

  lemma {:induction false} RunsByHand(s: State, r: ReviewId, results: seq<Gate.AgentResult>, failed: seq<string>)
    requires r < |s.web.records|
    ensures var job := Pipeline.Job(r, results, failed, Pipeline.Absent);
            var plan := Pipeline.Plan(job);
            RunAll(s, ByHand(s, r, results, failed))
            == s.(tables := Pipeline.Exec(s.tables, plan), runs := s.runs + [Run(job, |plan|, Manual, Going)])
  {
    hide Pipeline.Plan, Pipeline.Exec, Advances, RunAll;
    var job := Pipeline.Job(r, results, failed, Pipeline.Absent);
    var plan, run := Pipeline.Plan(job), Run(job, 0, Manual, Going);
    RunHead(s, Trigger(r, results, failed), Advances(|s.runs|, |plan|));
    RunAdvances(s, run, |plan|);
    assert plan[..|plan|] == plan;
  }

  /** What a whole plan without a client does to the tables. */
  lemma {:induction false} PlanFinishes(tables: Pipeline.Tables, job: Pipeline.Job)
    requires job.client == Pipeline.Absent && job.review in tables.reviews
    ensures var r, after, update := job.review, Pipeline.Exec(tables, Pipeline.Plan(job)), Pipeline.StatusUpdate(job);
            && update.UpdateStatus?
            && after.reviews == tables.reviews[r := Pipeline.ReviewRow(update.status, Some(job.Verdict().confidence),
                                                      tables.reviews[r].githubReviewId)]
            && (AwaitsHuman(update.status) <==> job.Decision() != Gate.AutoPost)
            && update.status != Pipeline.Pending
            && Pipeline.RowsOf(after, r) == Pipeline.Plus(Pipeline.RowsOf(tables, r), Pipeline.Footprint(job))
  {
    hide Pipeline.Plan, Pipeline.Exec, Pipeline.StatusUpdate, Pipeline.RowsOf, Pipeline.Footprint, Pipeline.Adds,
         Pipeline.Job.Decision, Pipeline.Job.Verdict;
    Pipeline.StatusMeans(job);
    Pipeline.StatusAfterRun(tables, job);
    Pipeline.ExecAdds(tables, Pipeline.Plan(job), job.review);
    Pipeline.PlanAdds(job, job.review);
  }

  lemma {:induction false} RunHead(s: State, a: Action, rest: seq<Action>)
    ensures RunAll(s, [a] + rest) == RunAll(Step(s, a), rest)
  {
    hide Step;
    assert ([a] + rest)[1..] == rest;
  }

  lemma {:induction false} StaysReachable(s: State, trace: seq<Action>)
    requires Reachable(s)
    ensures Reachable(RunAll(s, trace))
    decreases trace
  {
    hide Step, Reachable;
    if trace != [] {
      StepStaysReachable(s, trace[0]);
      StaysReachable(Step(s, trace[0]), trace[1..]);
    }
  }
}
