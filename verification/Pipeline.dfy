/**
 * One run of the review pipeline and the tables it leaves behind. Every statement commits by itself,
 * so a run may stop after any of them; runs are repeated, and humans decide the queued reviews.
 */
module Pipeline {
  import opened Common
  import Gate

  datatype Status = Pending | Posted | Queued | Escalated | Completed

  datatype ReviewRow = ReviewRow(status: Status, confidence: Option<real>, githubReviewId: Option<int>)

  datatype FindingRow = FindingRow(review: ReviewId, finding: Gate.Merged)

  datatype Reason = LowConfidence | AgentFailure | CriticalFinding

  datatype HitlState = Waiting | Approved | Rejected

  datatype HitlRow = HitlRow(review: ReviewId, reason: Reason, state: HitlState, assignedTo: Option<string>)

  datatype Outcome = Approve | RequestChanges | CriticalBlock | Escalate

  /** The aggregator's decision events. */
  datatype EventRow =
    | PostFailed(review: ReviewId)
    | VerdictGiven(review: ReviewId, outcome: Outcome, decision: Gate.Decision, confidence: real)

  /** The database, and the calls of the GitHub client. */
  datatype Tables = Tables(
    reviews: map<ReviewId, ReviewRow>,
    findings: seq<FindingRow>,
    hitl: seq<HitlRow>,
    events: seq<EventRow>,
    attempts: seq<ReviewId>
  )

  /** The GitHub client of a run: none, one whose post succeeds, or one whose post raises. */
  datatype Client = Absent | Posts(id: int) | Refuses

  /** A run: the review and what the agents and GitHub will answer. */
  datatype Job = Job(review: ReviewId, results: seq<Gate.AgentResult>, errors: seq<string>, client: Client) {
    function Merged(): seq<Gate.Merged> {
      Gate.Merge(Gate.Collected(results))
    }

    function Verdict(): Gate.Verdict {
      Gate.Decide(Merged(), errors)
    }

    predicate TriesToPost() {
      Verdict().decision == Gate.AutoPost && client != Absent
    }

    /** A failed post sends the review to the approval queue. */
    function Decision(): Gate.Decision {
      if TriesToPost() && client == Refuses then Gate.ApprovalQueue else Verdict().decision
    }
  }

  // ---------- Statements ----------

  datatype Statement =
    | PostReview(review: ReviewId)
    | EmitPostFailed(review: ReviewId)
    | InsertFinding(review: ReviewId, finding: Gate.Merged)
    | UpdateStatus(review: ReviewId, status: Status, confidence: real, githubReviewId: Option<int>)
    | Enqueue(review: ReviewId, reason: Reason)
    | EmitVerdict(review: ReviewId, outcome: Outcome, decision: Gate.Decision, confidence: real)

  function Apply(t: Tables, s: Statement): Tables {
    match s
    case PostReview(r) => t.(attempts := t.attempts + [r])
    case EmitPostFailed(r) => t.(events := t.events + [PostFailed(r)])
    case InsertFinding(r, f) => t.(findings := t.findings + [FindingRow(r, f)])
    case UpdateStatus(r, status, confidence, gid) =>
      if r !in t.reviews then t
      else
        var kept := if gid.Some? then gid else t.reviews[r].githubReviewId;
        t.(reviews := t.reviews[r := ReviewRow(status, Some(confidence), kept)])
    case Enqueue(r, reason) => t.(hitl := t.hitl + [HitlRow(r, reason, Waiting, None)])
    case EmitVerdict(r, outcome, decision, confidence) =>
      t.(events := t.events + [VerdictGiven(r, outcome, decision, confidence)])
  }

  function Exec(t: Tables, statements: seq<Statement>): Tables
    decreases statements
  {
    if statements == [] then t else Exec(Apply(t, statements[0]), statements[1..])
  }

  function Posting(j: Job): seq<Statement> {
    if !j.TriesToPost() then []
    else if j.client == Refuses then [PostReview(j.review), EmitPostFailed(j.review)]
    else [PostReview(j.review)]
  }

  function InsertsOf(review: ReviewId, merged: seq<Gate.Merged>): (statements: seq<Statement>)
    ensures |statements| == |merged|
    ensures forall i | 0 <= i < |merged| :: statements[i] == InsertFinding(review, merged[i])
  {
    if merged == [] then []
    else
      var n := |merged| - 1;
      InsertsOf(review, merged[..n]) + [InsertFinding(review, merged[n])]
  }

  function Inserts(j: Job): seq<Statement> {
    InsertsOf(j.review, j.Merged())
  }

  function StatusUpdate(j: Job): Statement {
    var r, confidence := j.review, j.Verdict().confidence;
    match j.Decision()
    case AutoPost =>
      if j.client.Posts? then UpdateStatus(r, Posted, confidence, Some(j.client.id))
      else UpdateStatus(r, Completed, confidence, None)
    case ApprovalQueue => UpdateStatus(r, Queued, confidence, None)
    case Escalate => UpdateStatus(r, Escalated, confidence, None)
  }

  function ReasonOf(j: Job): Reason {
    if j.Decision() == Gate.Escalate then CriticalFinding
    else if j.errors != [] then AgentFailure
    else LowConfidence
  }

  function Queueing(j: Job): seq<Statement> {
    if j.Decision() == Gate.AutoPost then [] else [Enqueue(j.review, ReasonOf(j))]
  }

  function Filing(j: Job): seq<Statement> {
    [StatusUpdate(j)] + Queueing(j)
  }

  function OutcomeOf(j: Job): Outcome {
    match j.Decision()
    case Escalate => Outcome.Escalate
    case ApprovalQueue => if j.errors != [] then CriticalBlock else RequestChanges
    case AutoPost => Approve
  }

  /** A run without its last statement, the verdict. */
  function Body(j: Job): seq<Statement> {
    Posting(j) + Inserts(j) + Filing(j)
  }

  /** The statements of an undisturbed run, in order. */
  function Plan(j: Job): seq<Statement> {
    Body(j) + [VerdictStatement(j)]
  }

  function VerdictStatement(j: Job): Statement {
    EmitVerdict(j.review, OutcomeOf(j), j.Decision(), j.Verdict().confidence)
  }

  // ---------- Human decisions and whole histories ----------

  /** `UPDATE ... WHERE id = ... AND state = 'queued'` */
  function Decide(t: Tables, row: nat, state: HitlState, reviewer: Option<string>): Tables {
    if row < |t.hitl| && t.hitl[row].state == Waiting then
      var who := if reviewer.Some? then reviewer else t.hitl[row].assignedTo;
      t.(hitl := t.hitl[row := t.hitl[row].(state := state, assignedTo := who)])
    else t
  }

  /** A run that gets through its first `steps` statements, or a decision by a human. */
  datatype Op =
    | Run(job: Job, steps: nat)
    | Judge(row: nat, approve: bool, reviewer: Option<string>)
  {
    predicate Complete() {
      Run? && steps >= |Plan(job)|
    }

    function Statements(): seq<Statement>
      requires Run?
    {
      if steps < |Plan(job)| then Plan(job)[..steps] else Plan(job)
    }
  }

  function Do(t: Tables, op: Op): Tables {
    match op
    case Run(_, _) => Exec(t, op.Statements())
    case Judge(row, approve, reviewer) => Decide(t, row, if approve then Approved else Rejected, reviewer)
  }

  function DoAll(t: Tables, ops: seq<Op>): Tables
    decreases ops
  {
    if ops == [] then t else DoAll(Do(t, ops[0]), ops[1..])
  }

  // ---------- Counting rows ----------

  /** Rows of one review, table by table. */
  datatype Rows = Rows(findings: nat, hitl: nat, failedPosts: nat, verdicts: nat, posts: nat)

  function Plus(a: Rows, b: Rows): Rows {
    Rows(a.findings + b.findings, a.hitl + b.hitl, a.failedPosts + b.failedPosts,
         a.verdicts + b.verdicts, a.posts + b.posts)
  }

  // Whose row a statement adds, table by table.

  function InsertFor(s: Statement): Option<ReviewId> {
    if s.InsertFinding? then Some(s.review) else None
  }

  function EnqueueFor(s: Statement): Option<ReviewId> {
    if s.Enqueue? then Some(s.review) else None
  }

  function PostFailedFor(s: Statement): Option<ReviewId> {
    if s.EmitPostFailed? then Some(s.review) else None
  }

  function VerdictFor(s: Statement): Option<ReviewId> {
    if s.EmitVerdict? then Some(s.review) else None
  }

  function PostFor(s: Statement): Option<ReviewId> {
    if s.PostReview? then Some(s.review) else None
  }

  /** What a list of statements adds to the rows of review `r`. */
  function Adds(statements: seq<Statement>, r: ReviewId): Rows {
    Rows(Tally(InsertFor, statements, Some(r)),
         Tally(EnqueueFor, statements, Some(r)),
         Tally(PostFailedFor, statements, Some(r)),
         Tally(VerdictFor, statements, Some(r)),
         Tally(PostFor, statements, Some(r)))
  }

  function FindingOwner(f: FindingRow): ReviewId {
    f.review
  }

  function HitlOwner(h: HitlRow): ReviewId {
    h.review
  }

  function FailedPostOwner(e: EventRow): Option<ReviewId> {
    if e.PostFailed? then Some(e.review) else None
  }

  function VerdictOwner(e: EventRow): Option<ReviewId> {
    if e.VerdictGiven? then Some(e.review) else None
  }

  function Self(r: ReviewId): ReviewId {
    r
  }

  /** The rows of review `r` in the tables. */
  function RowsOf(t: Tables, r: ReviewId): Rows {
    Rows(Tally(FindingOwner, t.findings, r),
         Tally(HitlOwner, t.hitl, r),
         Tally(FailedPostOwner, t.events, Some(r)),
         Tally(VerdictOwner, t.events, Some(r)),
         Tally(Self, t.attempts, r))
  }

  lemma {:induction false} AddsConcat(a: seq<Statement>, b: seq<Statement>, r: ReviewId)
    ensures Adds(a + b, r) == Plus(Adds(a, r), Adds(b, r))
  {
    hide Tally;
    TallyConcat(InsertFor, a, b, Some(r));
    TallyConcat(EnqueueFor, a, b, Some(r));
    TallyConcat(PostFailedFor, a, b, Some(r));
    TallyConcat(VerdictFor, a, b, Some(r));
    TallyConcat(PostFor, a, b, Some(r));
  }

  function AddsOf(s: Statement, r: ReviewId): Rows {
    Rows(if InsertFor(s) == Some(r) then 1 else 0,
         if EnqueueFor(s) == Some(r) then 1 else 0,
         if PostFailedFor(s) == Some(r) then 1 else 0,
         if VerdictFor(s) == Some(r) then 1 else 0,
         if PostFor(s) == Some(r) then 1 else 0)
  }

  lemma {:induction false} AddsOne(s: Statement, r: ReviewId)
    ensures Adds([s], r) == AddsOf(s, r)
    ensures Adds([], r) == Rows(0, 0, 0, 0, 0)
  {
    hide Tally;
    TallyOne(InsertFor, s, Some(r));
    TallyOne(EnqueueFor, s, Some(r));
    TallyOne(PostFailedFor, s, Some(r));
    TallyOne(VerdictFor, s, Some(r));
    TallyOne(PostFor, s, Some(r));
  }

  lemma {:induction false} AddsTwo(a: Statement, b: Statement, r: ReviewId)
    ensures Adds([a, b], r) == Plus(AddsOf(a, r), AddsOf(b, r))
  {
    hide Adds, AddsOf, Plus;
    var x, y := [a], [b];
    assert [a, b] == x + y;
    AddsConcat(x, y, r);
    AddsOne(a, r);
    AddsOne(b, r);
  }

  lemma {:induction false} ApplyAdds(t: Tables, s: Statement, r: ReviewId)
    ensures RowsOf(Apply(t, s), r) == Plus(RowsOf(t, r), AddsOf(s, r))
  {
    hide Tally;
    match s {
      case PostReview(q) => TallySnoc(Self, t.attempts, q, r);
      case EmitPostFailed(q) =>
        TallySnoc(FailedPostOwner, t.events, PostFailed(q), Some(r));
        TallySnoc(VerdictOwner, t.events, PostFailed(q), Some(r));
      case InsertFinding(q, f) => TallySnoc(FindingOwner, t.findings, FindingRow(q, f), r);
      case UpdateStatus(q, _, _, _) =>
      case Enqueue(q, reason) => TallySnoc(HitlOwner, t.hitl, HitlRow(q, reason, Waiting, None), r);
      case EmitVerdict(q, outcome, decision, confidence) =>
        var e := VerdictGiven(q, outcome, decision, confidence);
        TallySnoc(FailedPostOwner, t.events, e, Some(r));
        TallySnoc(VerdictOwner, t.events, e, Some(r));
    }
  }

  lemma {:induction false} ExecAdds(t: Tables, statements: seq<Statement>, r: ReviewId)
    ensures RowsOf(Exec(t, statements), r) == Plus(RowsOf(t, r), Adds(statements, r))
    decreases statements
  {
    hide RowsOf, Adds, AddsOf, Apply;
    if statements == [] {
      AddsOne(PostReview(0), r);
    } else {
      ApplyAdds(t, statements[0], r);
      ExecAdds(Apply(t, statements[0]), statements[1..], r);
      AddsOne(statements[0], r);
      AddsConcat([statements[0]], statements[1..], r);
      assert statements == [statements[0]] + statements[1..];
    }
  }

  /** What a complete run adds for its own review. */
  function Footprint(j: Job): Rows {
    Rows(|j.Merged()|,
         if j.Decision() == Gate.AutoPost then 0 else 1,
         if j.TriesToPost() && j.client == Refuses then 1 else 0,
         1,
         if j.TriesToPost() then 1 else 0)
  }

  lemma {:induction false} InsertsAdd(review: ReviewId, merged: seq<Gate.Merged>, r: ReviewId)
    ensures Adds(InsertsOf(review, merged), r)
            == if r == review then Rows(|merged|, 0, 0, 0, 0) else Rows(0, 0, 0, 0, 0)
  {
    hide Adds;
    if merged == [] {
      AddsOne(PostReview(0), r);
    } else {
      var n := |merged| - 1;
      var one := [InsertFinding(review, merged[n])];
      InsertsAdd(review, merged[..n], r);
      AddsOne(InsertFinding(review, merged[n]), r);
      AddsConcat(InsertsOf(review, merged[..n]), one, r);
    }
  }

  lemma {:induction false} PostingAdds(j: Job, r: ReviewId)
    ensures Adds(Posting(j), r) ==
            if r != j.review || !j.TriesToPost() then Rows(0, 0, 0, 0, 0)
            else Rows(0, 0, if j.client == Refuses then 1 else 0, 0, 1)
  {
    hide Adds, Job.TriesToPost;
    PostStatementsAdd(j.review, r);
  }

  lemma {:induction false} PostStatementsAdd(q: ReviewId, r: ReviewId)
    ensures Adds([], r) == Rows(0, 0, 0, 0, 0)
    ensures Adds([PostReview(q)], r) == if r == q then Rows(0, 0, 0, 0, 1) else Rows(0, 0, 0, 0, 0)
    ensures Adds([PostReview(q), EmitPostFailed(q)], r)
            == if r == q then Rows(0, 0, 1, 0, 1) else Rows(0, 0, 0, 0, 0)
  {
    hide Adds;
    AddsOne(PostReview(q), r);
    AddsTwo(PostReview(q), EmitPostFailed(q), r);
  }

  lemma {:induction false} FilingAdds(j: Job, r: ReviewId)
    ensures Adds(Filing(j), r) ==
            if r == j.review && j.Decision() != Gate.AutoPost then Rows(0, 1, 0, 0, 0) else Rows(0, 0, 0, 0, 0)
  {
    UpdatesStatus(j);
    hide Adds, StatusUpdate, Job.Decision, ReasonOf;
    FilingStatementsAdd(StatusUpdate(j), j.review, ReasonOf(j), r);
    FilingShape(j);
  }

  lemma {:induction false} UpdatesStatus(j: Job)
    ensures StatusUpdate(j).UpdateStatus?
  {
    hide Job.Decision, Job.Verdict;
  }

  lemma {:induction false} FilingShape(j: Job)
    ensures Filing(j) == if j.Decision() == Gate.AutoPost then [StatusUpdate(j)]
                         else [StatusUpdate(j), Enqueue(j.review, ReasonOf(j))]
  {
    hide StatusUpdate, Job.Decision, ReasonOf;
  }

  lemma {:induction false} FilingStatementsAdd(update: Statement, q: ReviewId, reason: Reason, r: ReviewId)
    requires update.UpdateStatus?
    ensures Adds([update], r) == Rows(0, 0, 0, 0, 0)
    ensures Adds([update, Enqueue(q, reason)], r)
            == if r == q then Rows(0, 1, 0, 0, 0) else Rows(0, 0, 0, 0, 0)
  {
    hide Adds;
    AddsOne(update, r);
    AddsTwo(update, Enqueue(q, reason), r);
  }

  lemma {:induction false} AddsThree(a: seq<Statement>, b: seq<Statement>, c: seq<Statement>, r: ReviewId)
    ensures Adds(a + b + c, r) == Plus(Plus(Adds(a, r), Adds(b, r)), Adds(c, r))
  {
    hide Adds, Plus;
    var ab := a + b;
    AddsConcat(a, b, r);
    AddsConcat(ab, c, r);
  }

  lemma {:induction false} FindingsAdd(j: Job, r: ReviewId)
    ensures Adds(Inserts(j), r) == if r == j.review then Rows(|j.Merged()|, 0, 0, 0, 0) else Rows(0, 0, 0, 0, 0)
  {
    InsertsAdd(j.review, j.Merged(), r);
    hide Adds, InsertsOf, Job.Merged;
  }

  lemma {:induction false} BodyAdds(j: Job, r: ReviewId)
    ensures Adds(Body(j), r) == if r == j.review then Footprint(j).(verdicts := 0) else Rows(0, 0, 0, 0, 0)
  {
    hide Adds, Posting, Inserts, Filing, Job.Merged, Job.Decision, Job.TriesToPost;
    PostingAdds(j, r);
    FindingsAdd(j, r);
    FilingAdds(j, r);
    AddsThree(Posting(j), Inserts(j), Filing(j), r);
  }

  lemma {:induction false} PlanAdds(j: Job, r: ReviewId)
    ensures Adds(Plan(j), r) == if r == j.review then Footprint(j) else Rows(0, 0, 0, 0, 0)
  {
    hide Adds, Body, Job.Merged, Job.Decision, Job.TriesToPost;
    BodyAdds(j, r);
    var verdict := VerdictStatement(j);
    var last := [verdict];
    AddsConcat(Body(j), last, r);
    AddsOne(verdict, r);
  }

  // ---------- What any history of runs and decisions leaves behind ----------

  /** The rows that complete runs of review `r` are worth. */
  function Worth(op: Op, r: ReviewId): Rows {
    if op.Run? && op.job.review == r then Footprint(op.job) else Rows(0, 0, 0, 0, 0)
  }

  function WorthAll(ops: seq<Op>, r: ReviewId): Rows {
    if ops == [] then Rows(0, 0, 0, 0, 0) else Plus(Worth(ops[0], r), WorthAll(ops[1..], r))
  }

  lemma {:induction false} DecideKeepsRows(t: Tables, row: nat, state: HitlState, reviewer: Option<string>, r: ReviewId)
    ensures RowsOf(Decide(t, row, state, reviewer), r) == RowsOf(t, r)
  {
    hide Tally;
    var u := Decide(t, row, state, reviewer);
    if row < |t.hitl| {
      TallyUpdate(HitlOwner, t.hitl, row, u.hitl[row], r);
    }
  }

  /** Every run of the history completes. */
  ghost predicate Undisturbed(ops: seq<Op>) {
    forall i | 0 <= i < |ops| :: ops[i].Run? ==> ops[i].Complete()
  }

  lemma {:induction false} FirstUndisturbed(ops: seq<Op>)
    requires ops != [] && Undisturbed(ops)
    ensures Undisturbed(ops[1..]) && (ops[0].Run? ==> ops[0].Complete())
  {
    hide Op.Complete;
  }

  lemma {:induction false} PlusAssociates(a: Rows, b: Rows, c: Rows)
    ensures Plus(Plus(a, b), c) == Plus(a, Plus(b, c))
  {
  }

  lemma {:induction false} NothingMore(t: Tables, r: ReviewId)
    ensures RowsOf(t, r) == Plus(RowsOf(t, r), WorthAll([], r))
  {
  }

  /**
   * After any sequence of complete runs, reruns and human decisions: one HITL row for every run of the
   * review that ended in the approval queue or escalated, one finding row for every merged finding, one
   * verdict event for every run, one event for every failed post, and one attempt for every post.
   */
  lemma {:induction false} RowsAfterHistory(t: Tables, ops: seq<Op>, r: ReviewId)
    requires Undisturbed(ops)
    ensures RowsOf(DoAll(t, ops), r) == Plus(RowsOf(t, r), WorthAll(ops, r))
    decreases ops
  {
    if ops != [] {
      hide RowsOf, Worth, Do, Plus, Undisturbed;
      var u, rest := Do(t, ops[0]), ops[1..];
      FirstUndisturbed(ops);
      RowsOfOp(t, ops[0], r);
      RowsAfterHistory(u, rest, r);
      PlusAssociates(RowsOf(t, r), Worth(ops[0], r), WorthAll(rest, r));
    } else {
      NothingMore(t, r);
    }
  }

  lemma {:induction false} RowsOfOp(t: Tables, op: Op, r: ReviewId)
    requires op.Run? ==> op.Complete()
    ensures RowsOf(Do(t, op), r) == Plus(RowsOf(t, r), Worth(op, r))
  {
    hide RowsOf, Footprint, Adds, Exec, Plan;
    match op {
      case Run(job, steps) =>
        ExecAdds(t, Plan(job), r);
        PlanAdds(job, r);
      case Judge(row, approve, reviewer) =>
        DecideKeepsRows(t, row, if approve then Approved else Rejected, reviewer, r);
    }
  }

  function CompleteRuns(ops: seq<Op>, r: ReviewId): nat {
    if ops == [] then 0
    else (if ops[0].Complete() && ops[0].job.review == r then 1 else 0) + CompleteRuns(ops[1..], r)
  }

  /** The verdict comes last: a run that stops early adds no verdict event. */
  lemma {:induction false} StoppedRunAddsNoVerdict(j: Job, steps: nat, r: ReviewId)
    requires steps < |Plan(j)|
    ensures Adds(Plan(j)[..steps], r).verdicts == 0
    ensures Adds(Plan(j)[..steps], r).findings <= |j.Merged()|
    ensures Adds(Plan(j)[..steps], r).hitl <= (if j.Decision() == Gate.AutoPost then 0 else 1)
  {
    hide Adds, Posting, Inserts, Filing, Gate.Decide, Gate.Merge;
    var body := Body(j);
    assert Plan(j)[..steps] == body[..steps];
    assert body == body[..steps] + body[steps..];
    AddsConcat(body[..steps], body[steps..], r);
    BodyAdds(j, r);
  }

  /** Wherever runs stop, a review has exactly as many verdict events as runs that completed. */
  lemma {:induction false} VerdictsCountCompleteRuns(t: Tables, ops: seq<Op>, r: ReviewId)
    ensures RowsOf(DoAll(t, ops), r).verdicts == RowsOf(t, r).verdicts + CompleteRuns(ops, r)
    decreases ops
  {
    if ops != [] {
      hide RowsOf, Footprint, Adds, Exec, Plan;
      VerdictsOfOp(t, ops[0], r);
      VerdictsCountCompleteRuns(Do(t, ops[0]), ops[1..], r);
    }
  }

  lemma {:induction false} VerdictsOfOp(t: Tables, op: Op, r: ReviewId)
    ensures RowsOf(Do(t, op), r).verdicts
            == RowsOf(t, r).verdicts + (if op.Complete() && op.job.review == r then 1 else 0)
  {
    hide RowsOf, Adds, Exec, Plan;
    match op {
      case Run(job, steps) =>
        ExecAdds(t, op.Statements(), r);
        if steps < |Plan(job)| {
          StoppedRunAddsNoVerdict(job, steps, r);
        } else {
          PlanAdds(job, r);
        }
      case Judge(row, approve, reviewer) =>
        DecideKeepsRows(t, row, if approve then Approved else Rejected, reviewer, r);
    }
  }

  // ---------- Decided rows stay decided ----------

  /** HITL rows are never removed, keep their review and reason, and never change once decided. */
  ghost predicate HitlExtends(t: Tables, u: Tables) {
    && |t.hitl| <= |u.hitl|
    && (forall i | 0 <= i < |t.hitl| ::
          && u.hitl[i].review == t.hitl[i].review && u.hitl[i].reason == t.hitl[i].reason
          && (t.hitl[i].state != Waiting ==> u.hitl[i] == t.hitl[i]))
  }

  lemma {:induction false} ExecExtendsHitl(t: Tables, statements: seq<Statement>)
    ensures t.hitl <= Exec(t, statements).hitl
    decreases statements
  {
    if statements != [] {
      ApplyExtendsHitl(t, statements[0]);
      hide Apply;
      ExecExtendsHitl(Apply(t, statements[0]), statements[1..]);
    }
  }

  lemma {:induction false} ApplyExtendsHitl(t: Tables, s: Statement)
    ensures t.hitl <= Apply(t, s).hitl
  {
  }

  lemma {:induction false} DecidedRowsStay(t: Tables, ops: seq<Op>)
    ensures HitlExtends(t, DoAll(t, ops))
    decreases ops
  {
    hide Do, HitlExtends;
    if ops == [] {
      HitlReflexive(t);
    } else {
      var u := Do(t, ops[0]);
      OpExtendsHitl(t, ops[0]);
      DecidedRowsStay(u, ops[1..]);
      HitlTransitive(t, u, DoAll(u, ops[1..]));
    }
  }

  lemma {:induction false} HitlReflexive(t: Tables)
    ensures HitlExtends(t, t)
  {
  }

  lemma {:induction false} HitlTransitive(t: Tables, u: Tables, v: Tables)
    requires HitlExtends(t, u) && HitlExtends(u, v)
    ensures HitlExtends(t, v)
  {
  }

  lemma {:induction false} OpExtendsHitl(t: Tables, op: Op)
    ensures HitlExtends(t, Do(t, op))
  {
    if op.Run? {
      hide Plan, Exec;
      ExecExtendsHitl(t, op.Statements());
    }
  }

  // ---------- What one complete run means for its review ----------

  lemma {:induction false} ExecConcat(t: Tables, a: seq<Statement>, b: seq<Statement>)
    ensures Exec(t, a + b) == Exec(Exec(t, a), b)
    decreases a
  {
    if a == [] {
      assert a + b == b;
    } else {
      hide Apply;
      assert (a + b)[1..] == a[1..] + b;
      ExecConcat(Apply(t, a[0]), a[1..], b);
    }
  }

  lemma {:induction false} ExecOne(t: Tables, s: Statement)
    ensures Exec(t, [s]) == Apply(t, s)
  {
    hide Apply;
    assert Exec(t, [s]) == Exec(Apply(t, s), [s][1..]);
  }

  /** Posting and inserting findings leave the review's row alone. */
  lemma {:induction false} EarlyStatementsKeepReviews(t: Tables, statements: seq<Statement>)
    requires forall i | 0 <= i < |statements| :: !statements[i].UpdateStatus?
    ensures Exec(t, statements).reviews == t.reviews
    decreases statements
  {
    if statements != [] {
      assert !statements[0].UpdateStatus?;
      assert Apply(t, statements[0]).reviews == t.reviews;
      hide Apply;
      EarlyStatementsKeepReviews(Apply(t, statements[0]), statements[1..]);
    }
  }

  /** The one status update of a run, with what comes before and after it. */
  lemma {:induction false} FilingStartsWithStatus(j: Job)
    ensures Filing(j) == [StatusUpdate(j)] + Filing(j)[1..]
    ensures forall i | 1 <= i < |Filing(j)| :: !Filing(j)[i].UpdateStatus?
  {
    hide Job.Merged, Job.Decision, Job.TriesToPost, StatusUpdate, ReasonOf;
  }

  lemma {:induction false} PostingAndInserts(j: Job)
    ensures forall s | s in Posting(j) + Inserts(j) :: !s.UpdateStatus?
  {
    hide Job.Merged, Job.TriesToPost;
  }

  lemma {:induction false} PlanShape(j: Job) returns (early: seq<Statement>, late: seq<Statement>)
    ensures Plan(j) == early + ([StatusUpdate(j)] + late)
    ensures forall i | 0 <= i < |early| :: !early[i].UpdateStatus?
    ensures forall i | 0 <= i < |late| :: !late[i].UpdateStatus?
  {
    hide Posting, Inserts, Filing, StatusUpdate, ReasonOf, OutcomeOf;
    PostingAndInserts(j);
    FilingStartsWithStatus(j);
    early, late := Posting(j) + Inserts(j), Filing(j)[1..] + [VerdictStatement(j)];
    var filing, update, verdict := Filing(j), [StatusUpdate(j)], [VerdictStatement(j)];
    assert early + filing + verdict == early + (update + (filing[1..] + verdict));
  }

  lemma {:induction false} StatusMeans(j: Job)
    ensures var s := StatusUpdate(j);
            && s.UpdateStatus? && s.review == j.review && s.confidence == j.Verdict().confidence
            && (s.status == Posted <==> j.Decision() == Gate.AutoPost && j.client.Posts?)
            && (s.status == Completed <==> j.Decision() == Gate.AutoPost && j.client == Absent)
            && (s.status == Queued <==> j.Decision() == Gate.ApprovalQueue)
            && (s.status == Escalated <==> j.Decision() == Gate.Escalate)
            && (s.githubReviewId == if s.status == Posted then Some(j.client.id) else None)
  {
    hide Gate.Decide, Gate.Merge;
  }

  /** The review's row after a run holds that run's status and confidence; other reviews keep theirs. */
  lemma {:induction false} StatusAfterRun(t: Tables, j: Job)
    requires j.review in t.reviews
    ensures var u, s := Exec(t, Plan(j)), StatusUpdate(j);
            && s.UpdateStatus?
            && u.reviews == t.reviews[j.review := ReviewRow(s.status, Some(j.Verdict().confidence),
                 if s.status == Posted then Some(j.client.id) else t.reviews[j.review].githubReviewId)]
  {
    StatusMeans(j);
    var early, late := PlanShape(j);
    hide Plan, StatusUpdate, Gate.Decide, Gate.Merge;
    ExecConcat(t, early, [StatusUpdate(j)] + late);
    ExecConcat(Exec(t, early), [StatusUpdate(j)], late);
    ExecOne(Exec(t, early), StatusUpdate(j));
    EarlyStatementsKeepReviews(t, early);
    EarlyStatementsKeepReviews(Exec(Exec(t, early), [StatusUpdate(j)]), late);
  }

  // ---------- All that one complete run leaves, in plain terms ----------

  /** The run asked GitHub and was refused. */
  predicate Refused(j: Job) {
    Gate.Route(j.results, j.errors).decision == Gate.AutoPost && j.client == Refuses
  }

  /** The decision that stands: a refused post goes to the approval queue. */
  function FinalDecision(j: Job): Gate.Decision {
    if Refused(j) then Gate.ApprovalQueue else Gate.Route(j.results, j.errors).decision
  }

  lemma {:induction false} FinalDecisionIs(j: Job)
    ensures j.Decision() == FinalDecision(j) && j.Verdict() == Gate.Route(j.results, j.errors)
    ensures j.TriesToPost() <==> Gate.Route(j.results, j.errors).decision == Gate.AutoPost && j.client != Absent
    ensures j.Merged() == Gate.Merge(Gate.Collected(j.results))
  {
    hide Gate.Decide, Gate.Merge, Gate.Collected;
  }

  /** The same tables with the findings of a run added, one row for each, in order. */
  ghost predicate FindingsAdded(before: seq<FindingRow>, after: seq<FindingRow>, r: ReviewId,
                                merged: seq<Gate.Merged>) {
    && before <= after && |after| == |before| + |merged|
    && (forall k | 0 <= k < |merged| :: after[|before| + k] == FindingRow(r, merged[k]))
  }

  lemma {:induction false} PostingEffect(t: Tables, j: Job)
    ensures var tried, refused := j.TriesToPost(), j.TriesToPost() && j.client == Refuses;
            Exec(t, Posting(j))
            == t.(attempts := t.attempts + (if tried then [j.review] else []),
                  events := t.events + (if refused then [PostFailed(j.review)] else []))
  {
    hide Job.TriesToPost, Apply;
    var post, failed := PostReview(j.review), EmitPostFailed(j.review);
    if !j.TriesToPost() {
    } else if j.client == Refuses {
      ExecOne(t, post);
      ExecSnoc(t, [post], failed);
      assert [post, failed] == [post] + [failed];
      PostEffects(t, j.review);
    } else {
      ExecOne(t, post);
      PostEffects(t, j.review);
    }
  }

  lemma {:induction false} PostEffects(t: Tables, r: ReviewId)
    ensures Apply(t, PostReview(r)) == t.(attempts := t.attempts + [r], events := t.events + [])
    ensures Apply(Apply(t, PostReview(r)), EmitPostFailed(r))
            == t.(attempts := t.attempts + [r], events := t.events + [PostFailed(r)])
  {
  }

  lemma {:induction false} InsertsEffect(t: Tables, r: ReviewId, merged: seq<Gate.Merged>)
    ensures var u := Exec(t, InsertsOf(r, merged));
            && u == t.(findings := u.findings) && FindingsAdded(t.findings, u.findings, r, merged)
    decreases |merged|
  {
    if merged != [] {
      hide Exec;
      var n := |merged| - 1;
      InsertsEffect(t, r, merged[..n]);
      ExecSnoc(t, InsertsOf(r, merged[..n]), InsertFinding(r, merged[n]));
    }
  }

  /** The row that a run files for the humans, if any. */
  function FiledRow(j: Job): seq<HitlRow> {
    match FinalDecision(j)
    case AutoPost => []
    case Escalate => [HitlRow(j.review, CriticalFinding, Waiting, None)]
    case ApprovalQueue => [HitlRow(j.review, if j.errors != [] then AgentFailure else LowConfidence, Waiting, None)]
  }

  /** The status that a run gives its review. */
  function FiledStatus(j: Job): Status {
    match FinalDecision(j)
    case AutoPost => if j.client.Posts? then Posted else Completed
    case ApprovalQueue => Queued
    case Escalate => Escalated
  }

  lemma {:induction false} FilingEffect(t: Tables, j: Job)
    requires j.review in t.reviews
    ensures var gid := if FiledStatus(j) == Posted then Some(j.client.id) else t.reviews[j.review].githubReviewId;
            var row := ReviewRow(FiledStatus(j), Some(Gate.Route(j.results, j.errors).confidence), gid);
            Exec(t, Filing(j)) == t.(reviews := t.reviews[j.review := row], hitl := t.hitl + FiledRow(j))
  {
    FinalDecisionIs(j);
    hide Job.Decision, Job.Verdict, Job.TriesToPost, FinalDecision, Gate.Route, Exec;
    var update := StatusUpdate(j);
    ExecOne(t, update);
    if j.Decision() == Gate.AutoPost {
      assert Filing(j) == [update];
    } else {
      var enqueue := Enqueue(j.review, ReasonOf(j));
      ExecSnoc(t, [update], enqueue);
      assert Filing(j) == [update] + [enqueue];
    }
  }

  /** The outcome that the verdict event carries. */
  function VerdictOutcome(j: Job): Outcome {
    match FinalDecision(j)
    case Escalate => Outcome.Escalate
    case AutoPost => Approve
    case ApprovalQueue => if j.errors != [] then CriticalBlock else RequestChanges
  }

  lemma {:induction false} VerdictEffect(t: Tables, j: Job)
    ensures var event := VerdictGiven(j.review, VerdictOutcome(j), FinalDecision(j),
                                      Gate.Route(j.results, j.errors).confidence);
            Exec(t, [VerdictStatement(j)]) == t.(events := t.events + [event])
  {
    FinalDecisionIs(j);
    hide Job.Decision, Job.Verdict, Job.TriesToPost, FinalDecision, Gate.Route, Exec;
    ExecOne(t, VerdictStatement(j));
  }

  /**
   * Everything that a complete run leaves in the tables. The final decision is that of the agents' results,
   * except that a refused post goes to the approval queue.
   */
  lemma {:induction false} RunLeavesExactly(t: Tables, j: Job)
    requires j.review in t.reviews
    ensures var u, verdict, r := Exec(t, Plan(j)), Gate.Route(j.results, j.errors), j.review;
            var gid := if FiledStatus(j) == Posted then Some(j.client.id) else t.reviews[r].githubReviewId;
            && FindingsAdded(t.findings, u.findings, r, Gate.Merge(Gate.Collected(j.results)))
            && u.hitl == t.hitl + FiledRow(j)
            && u.reviews == t.reviews[r := ReviewRow(FiledStatus(j), Some(verdict.confidence), gid)]
            && u.attempts == t.attempts + (if verdict.decision == Gate.AutoPost && j.client != Absent then [r] else [])
            && u.events == t.events + (if Refused(j) then [PostFailed(r)] else [])
                           + [VerdictGiven(r, VerdictOutcome(j), FinalDecision(j), verdict.confidence)]
  {
    FinalDecisionIs(j);
    hide Posting, Inserts, Filing, Exec, Gate.Route, Gate.Merge, Gate.Collected, Job.Decision, Job.Verdict,
         Job.TriesToPost, FinalDecision, FiledRow, FiledStatus, VerdictOutcome, VerdictStatement, FindingsAdded;
    var posting, inserts, filing, verdict := Posting(j), Inserts(j), Filing(j), [VerdictStatement(j)];
    InsertsAreOf(j);
    var t1 := Exec(t, posting);
    PostingEffect(t, j);
    var t2 := Exec(t1, inserts);
    InsertsEffect(t1, j.review, Gate.Merge(Gate.Collected(j.results)));
    var t3 := Exec(t2, filing);
    FilingEffect(t2, j);
    VerdictEffect(t3, j);
    ExecConcat(t, posting, inserts);
    ExecConcat(t, posting + inserts, filing);
    ExecConcat(t, posting + inserts + filing, verdict);
  }

  lemma {:induction false} InsertsAreOf(j: Job)
    ensures Inserts(j) == InsertsOf(j.review, Gate.Merge(Gate.Collected(j.results)))
  {
    hide InsertsOf, Gate.Merge, Gate.Collected;
  }

  // ---------- In which order ----------

  lemma {:induction false} AddsOfPrefix(a: seq<Statement>, n: nat, r: ReviewId)
    requires n <= |a|
    ensures Adds(a[..n], r).findings <= Adds(a, r).findings && Adds(a[..n], r).hitl <= Adds(a, r).hitl
    ensures Adds(a[..n], r).posts <= Adds(a, r).posts && Adds(a[..n], r).failedPosts <= Adds(a, r).failedPosts
    ensures Adds(a[..n], r).verdicts <= Adds(a, r).verdicts
  {
    hide Adds;
    var x, y := a[..n], a[n..];
    assert a == x + y;
    AddsConcat(x, y, r);
  }

  /** A prefix of `a + b` that is longer than `a` has all of `a` in it. */
  lemma {:induction false} AddsOfLonger(a: seq<Statement>, b: seq<Statement>, n: nat, r: ReviewId)
    requires |a| <= n <= |a| + |b|
    ensures Adds((a + b)[..n], r) == Plus(Adds(a, r), Adds(b[..n - |a|], r))
  {
    hide Adds, Plus;
    var x := b[..n - |a|];
    assert (a + b)[..n] == a + x;
    AddsConcat(a, x, r);
  }

  /**
   * Wherever a run stops: it has stored no finding before its post, queued nothing before all findings are
   * stored, and given no verdict before everything else is done.
   */
  lemma {:induction false} RunKeepsItsOrder(j: Job, n: nat)
    requires n <= |Plan(j)|
    ensures var a, whole := Adds(Plan(j)[..n], j.review), Footprint(j);
            && (a.findings > 0 ==> a.posts == whole.posts && a.failedPosts == whole.failedPosts)
            && (a.hitl > 0 ==> a.findings == whole.findings)
            && (a.verdicts > 0 ==> a == whole)
  {
    var r, posting, inserts, filing := j.review, Posting(j), Inserts(j), Filing(j);
    var verdict := [VerdictStatement(j)];
    PlanSplits(j);
    hide Plan, Adds, Posting, Inserts, Filing, Footprint, VerdictStatement;
    PlanAdds(j, r);
    PostingFirst(j, n);
    InsertsBeforeFiling(j, n);
    if n < |Plan(j)| {
      StoppedRunAddsNoVerdict(j, n, r);
    } else {
      assert Plan(j)[..n] == Plan(j);
    }
  }

  lemma {:induction false} PlanSplits(j: Job)
    ensures Plan(j) == Posting(j) + (Inserts(j) + Filing(j) + [VerdictStatement(j)])
    ensures Plan(j) == (Posting(j) + Inserts(j)) + (Filing(j) + [VerdictStatement(j)])
  {
    hide Posting, Inserts, Filing, VerdictStatement;
  }

  /** If only `a` posts and only `b` stores findings, a prefix of `a + b` with a finding has all of the posts. */
  lemma {:induction false} PostsFirst(a: seq<Statement>, b: seq<Statement>, n: nat, r: ReviewId)
    requires n <= |a| + |b| && Adds(a, r).findings == 0
    requires Adds(b, r).posts == 0 && Adds(b, r).failedPosts == 0
    ensures var prefix, whole := Adds((a + b)[..n], r), Adds(a + b, r);
            prefix.findings > 0 ==> prefix.posts == whole.posts && prefix.failedPosts == whole.failedPosts
  {
    hide Adds;
    AddsConcat(a, b, r);
    if n <= |a| {
      assert (a + b)[..n] == a[..n];
      AddsOfPrefix(a, n, r);
    } else {
      AddsOfLonger(a, b, n, r);
      AddsOfPrefix(b, n - |a|, r);
    }
  }

  /** If only `a` stores findings and only `b` queues, a prefix of `a + b` that queues has all of the findings. */
  lemma {:induction false} FindingsFirst(a: seq<Statement>, b: seq<Statement>, n: nat, r: ReviewId)
    requires n <= |a| + |b| && Adds(a, r).hitl == 0 && Adds(b, r).findings == 0
    ensures var prefix, whole := Adds((a + b)[..n], r), Adds(a + b, r);
            prefix.hitl > 0 ==> prefix.findings == whole.findings
  {
    hide Adds;
    AddsConcat(a, b, r);
    if n <= |a| {
      assert (a + b)[..n] == a[..n];
      AddsOfPrefix(a, n, r);
    } else {
      AddsOfLonger(a, b, n, r);
      AddsOfPrefix(b, n - |a|, r);
    }
  }

  lemma {:induction false} PostingFirst(j: Job, n: nat)
    requires n <= |Plan(j)|
    ensures var a, whole := Adds(Plan(j)[..n], j.review), Adds(Plan(j), j.review);
            a.findings > 0 ==> a.posts == whole.posts && a.failedPosts == whole.failedPosts
  {
    hide Plan, Adds, Posting, Inserts, Filing, VerdictStatement, Job.Merged, Job.Decision, Job.TriesToPost;
    var r, posting, later := j.review, Posting(j), Inserts(j) + Filing(j) + [VerdictStatement(j)];
    PlanSplits(j);
    PlanAdds(j, r);
    PostingAdds(j, r);
    AddsConcat(posting, later, r);
    PostsFirst(posting, later, n, r);
  }

  lemma {:induction false} InsertsBeforeFiling(j: Job, n: nat)
    requires n <= |Plan(j)|
    ensures var a, whole := Adds(Plan(j)[..n], j.review), Adds(Plan(j), j.review);
            a.hitl > 0 ==> a.findings == whole.findings
  {
    hide Plan, Adds, Posting, Inserts, Filing, VerdictStatement, Job.Merged, Job.Decision, Job.TriesToPost;
    var r, early, later := j.review, Posting(j) + Inserts(j), Filing(j) + [VerdictStatement(j)];
    PlanSplits(j);
    PlanAdds(j, r);
    PostingAdds(j, r);
    FindingsAdd(j, r);
    AddsConcat(Posting(j), Inserts(j), r);
    AddsConcat(early, later, r);
    FindingsFirst(early, later, n, r);
  }

  // ---------- Who decides a row ----------

  /** The first decision on a waiting row is the one that stays, whatever runs and decisions come around it. */
  lemma {:induction false} FirstDecisionStays(t: Tables, ops: seq<Op>, row: nat, k: nat)
    requires row < |t.hitl| && t.hitl[row].state == Waiting
    requires k < |ops| && ops[k].Judge? && ops[k].row == row
    requires forall i | 0 <= i < k :: !(ops[i].Judge? && ops[i].row == row)
    ensures row < |DoAll(t, ops).hitl|
    ensures DoAll(t, ops).hitl[row]
            == HitlRow(t.hitl[row].review, t.hitl[row].reason, if ops[k].approve then Approved else Rejected,
                       if ops[k].reviewer.Some? then ops[k].reviewer else t.hitl[row].assignedTo)
    decreases ops
  {
    hide Do, HitlExtends;
    var u, rest := Do(t, ops[0]), ops[1..];
    if k == 0 {
      JudgedRow(t, ops[0]);
      DecidedRowsStay(u, rest);
      DecidedRow(u, DoAll(u, rest), row);
    } else {
      OpLeavesRow(t, ops[0], row);
      assert forall i | 0 <= i < k - 1 :: rest[i] == ops[i + 1];
      FirstDecisionStays(u, rest, row, k - 1);
    }
  }

  lemma {:induction false} JudgedRow(t: Tables, op: Op)
    requires op.Judge? && op.row < |t.hitl| && t.hitl[op.row].state == Waiting
    ensures op.row < |Do(t, op).hitl|
    ensures Do(t, op).hitl[op.row]
            == HitlRow(t.hitl[op.row].review, t.hitl[op.row].reason, if op.approve then Approved else Rejected,
                       if op.reviewer.Some? then op.reviewer else t.hitl[op.row].assignedTo)
  {
  }

  lemma {:induction false} DecidedRow(t: Tables, u: Tables, row: nat)
    requires HitlExtends(t, u) && row < |t.hitl| && t.hitl[row].state != Waiting
    ensures row < |u.hitl| && u.hitl[row] == t.hitl[row]
  {
  }

  lemma {:induction false} OpLeavesRow(t: Tables, op: Op, row: nat)
    requires row < |t.hitl| && !(op.Judge? && op.row == row)
    ensures row < |Do(t, op).hitl| && Do(t, op).hitl[row] == t.hitl[row]
  {
    if op.Run? {
      hide Plan, Exec;
      ExecExtendsHitl(t, op.Statements());
    }
  }

  /** A row that nobody decides waits. */
  lemma {:induction false} UndecidedRowWaits(t: Tables, ops: seq<Op>, row: nat)
    requires row < |t.hitl|
    requires forall i | 0 <= i < |ops| :: !(ops[i].Judge? && ops[i].row == row)
    ensures row < |DoAll(t, ops).hitl| && DoAll(t, ops).hitl[row] == t.hitl[row]
    decreases ops
  {
    if ops != [] {
      OpLeavesRow(t, ops[0], row);
      hide Do;
      assert forall i | 0 <= i < |ops[1..]| :: ops[1..][i] == ops[i + 1];
      UndecidedRowWaits(Do(t, ops[0]), ops[1..], row);
    }
  }

  /** However far a run gets, it posts no more than its plan. */
  lemma {:induction false} PrefixPostsNoMore(j: Job, steps: nat)
    ensures Adds(Run(j, steps).Statements(), j.review).posts <= Adds(Plan(j), j.review).posts
  {
    hide Plan, Adds;
    var plan := Plan(j);
    if steps < |plan| {
      AddsConcat(plan[..steps], plan[steps..], j.review);
      assert plan == plan[..steps] + plan[steps..];
    }
  }

  lemma {:induction false} EscalatedPlanEnqueues(j: Job)
    requires j.Decision() == Gate.Escalate
    ensures Enqueue(j.review, CriticalFinding) in Plan(j)
  {
    hide Job.Decision, StatusUpdate, Posting, Inserts;
    var filing := Filing(j);
    assert filing[1] == Enqueue(j.review, CriticalFinding);
    assert filing[1] in filing;
  }

  /** A review with a CRITICAL winner is never sent to GitHub and always reaches a human. */
  lemma {:induction false} CriticalWinnerReachesAHuman(j: Job, steps: nat, i: int)
    requires Gate.Wins(Gate.Collected(j.results), i)
    requires Gate.Collected(j.results)[i].severity.Critical?
    ensures Adds(Run(j, steps).Statements(), j.review).posts == 0
    ensures steps >= |Plan(j)| ==> Enqueue(j.review, CriticalFinding) in Plan(j)
  {
    WinnerEscalates(j, i);
    PlanAdds(j, j.review);
    hide Plan, Adds, Job.Decision, Job.TriesToPost, Gate.Wins, Gate.Collected;
    PrefixPostsNoMore(j, steps);
    EscalatedPlanEnqueues(j);
  }

  lemma {:induction false} WinnerEscalates(j: Job, i: int)
    requires Gate.Wins(Gate.Collected(j.results), i)
    requires Gate.Collected(j.results)[i].severity.Critical?
    ensures j.Decision() == Gate.Escalate && !j.TriesToPost()
  {
    Gate.EscalatesExactly(j.results, j.errors);
    hide Gate.Decide, Gate.Merge, Gate.Collected, Gate.Wins;
  }

  // ---------- The run itself ----------

  lemma {:induction false} ExecSnoc(t: Tables, log: seq<Statement>, s: Statement)
    ensures Exec(t, log + [s]) == Apply(Exec(t, log), s)
  {
    ExecConcat(t, log, [s]);
    ExecOne(Exec(t, log), s);
  }

  lemma {:induction false} NoInserts(review: ReviewId)
    ensures InsertsOf(review, []) == []
  {
  }

  lemma {:induction false} InsertsSnoc(review: ReviewId, merged: seq<Gate.Merged>, k: nat)
    requires k < |merged|
    ensures InsertsOf(review, merged[..k + 1]) == InsertsOf(review, merged[..k]) + [InsertFinding(review, merged[k])]
  {
    assert merged[..k + 1][..k] == merged[..k];
  }

  class Database {
    var reviews: map<ReviewId, ReviewRow>
    var findings: seq<FindingRow>
    var hitl: seq<HitlRow>
    var events: seq<EventRow>
    /** Calls of the GitHub client. */
    ghost var attempts: seq<ReviewId>
    /** Every statement executed so far. */
    ghost var log: seq<Statement>

    ghost function View(): Tables
      reads this
    {
      Tables(reviews, findings, hitl, events, attempts)
    }

    method PostReview(r: ReviewId, client: Client) returns (posted: Option<int>)
      requires client != Absent
      modifies this`attempts, this`log
      ensures View() == Apply(old(View()), Statement.PostReview(r)) && log == old(log) + [Statement.PostReview(r)]
      ensures posted == if client.Posts? then Some(client.id) else None
    {
      attempts := attempts + [r];
      log := log + [Statement.PostReview(r)];
      posted := if client.Posts? then Some(client.id) else None;
    }

    method Emit(s: Statement)
      requires s.EmitPostFailed? || s.EmitVerdict?
      modifies this`events, this`log
      ensures View() == Apply(old(View()), s) && log == old(log) + [s]
    {
      match s {
        case EmitPostFailed(r) => events := events + [PostFailed(r)];
        case EmitVerdict(r, outcome, decision, confidence) =>
          events := events + [VerdictGiven(r, outcome, decision, confidence)];
      }
      log := log + [s];
    }

    method InsertFinding(r: ReviewId, f: Gate.Merged)
      modifies this`findings, this`log
      ensures View() == Apply(old(View()), Statement.InsertFinding(r, f))
      ensures log == old(log) + [Statement.InsertFinding(r, f)]
    {
      findings := findings + [FindingRow(r, f)];
      log := log + [Statement.InsertFinding(r, f)];
    }

    method UpdateReviewStatus(r: ReviewId, status: Status, confidence: real, githubReviewId: Option<int>)
      modifies this`reviews, this`log
      ensures View() == Apply(old(View()), UpdateStatus(r, status, confidence, githubReviewId))
      ensures log == old(log) + [UpdateStatus(r, status, confidence, githubReviewId)]
    {
      if r in reviews {
        var kept := if githubReviewId.Some? then githubReviewId else reviews[r].githubReviewId;
        reviews := reviews[r := ReviewRow(status, Some(confidence), kept)];
      }
      log := log + [UpdateStatus(r, status, confidence, githubReviewId)];
    }

    method Enqueue(r: ReviewId, reason: Reason)
      modifies this`hitl, this`log
      ensures View() == Apply(old(View()), Statement.Enqueue(r, reason))
      ensures log == old(log) + [Statement.Enqueue(r, reason)]
    {
      hitl := hitl + [HitlRow(r, reason, Waiting, None)];
      log := log + [Statement.Enqueue(r, reason)];
    }

    method Approve(row: nat, reviewer: Option<string>)
      modifies this`hitl
      ensures View() == Do(old(View()), Judge(row, true, reviewer))
    {
      if row < |hitl| && hitl[row].state == Waiting {
        var who := if reviewer.Some? then reviewer else hitl[row].assignedTo;
        hitl := hitl[row := hitl[row].(state := Approved, assignedTo := who)];
      }
    }

    method Reject(row: nat, reviewer: Option<string>)
      modifies this`hitl
      ensures View() == Do(old(View()), Judge(row, false, reviewer))
    {
      if row < |hitl| && hitl[row].state == Waiting {
        var who := if reviewer.Some? then reviewer else hitl[row].assignedTo;
        hitl := hitl[row := hitl[row].(state := Rejected, assignedTo := who)];
      }
    }

    /** Any one statement. Whether a post succeeds is no matter of the tables. */
    method Execute(s: Statement)
      modifies this
      ensures View() == Apply(old(View()), s) && log == old(log) + [s]
    {
      match s {
        case PostReview(r) => var id := PostReview(r, Posts(0));
        case EmitPostFailed(_) => Emit(s);
        case InsertFinding(r, f) => InsertFinding(r, f);
        case UpdateStatus(r, status, confidence, githubReviewId) =>
          UpdateReviewStatus(r, status, confidence, githubReviewId);
        case Enqueue(r, reason) => Enqueue(r, reason);
        case EmitVerdict(_, _, _, _) => Emit(s);
      }
    }

    /** Posts the review if the verdict allows it; a refused post turns into the approval queue. */
    method Post(j: Job) returns (decision: Gate.Decision, posted: Option<int>)
      modifies this`attempts, this`events, this`log
      ensures View() == Exec(old(View()), Posting(j)) && log == old(log) + Posting(j)
      ensures decision == j.Decision()
      ensures posted.Some? <==> j.Decision() == Gate.AutoPost && j.client.Posts?
      ensures posted.Some? ==> posted.value == j.client.id
    {
      hide Gate.Decide, Gate.Merge, Gate.Collected;
      decision := j.Verdict().decision;
      posted := None;
      ghost var start := View();
      if decision == Gate.AutoPost && j.client != Absent {
        ExecOne(start, Statement.PostReview(j.review));
        posted := PostReview(j.review, j.client);
        if posted == None {
          ExecSnoc(start, [Statement.PostReview(j.review)], EmitPostFailed(j.review));
          Emit(EmitPostFailed(j.review));
          decision := Gate.ApprovalQueue;
        }
      }
    }

    method InsertFindings(j: Job)
      modifies this`findings, this`log
      ensures View() == Exec(old(View()), Inserts(j)) && log == old(log) + Inserts(j)
    {
      hide Gate.Merge, Gate.Collected, Apply, InsertsOf;
      var merged := j.Merged();
      ghost var start, done: seq<Statement> := View(), [];
      NoInserts(j.review);
      for k := 0 to |merged|
        invariant done == InsertsOf(j.review, merged[..k])
        invariant View() == Exec(start, done) && log == old(log) + done
      {
        InsertsSnoc(j.review, merged, k);
        ExecSnoc(start, done, Statement.InsertFinding(j.review, merged[k]));
        done := done + [Statement.InsertFinding(j.review, merged[k])];
        InsertFinding(j.review, merged[k]);
      }
      assert merged[..|merged|] == merged;
    }

    method FileReview(j: Job, decision: Gate.Decision, posted: Option<int>)
      requires decision == j.Decision()
      requires posted.Some? <==> j.Decision() == Gate.AutoPost && j.client.Posts?
      requires posted.Some? ==> posted.value == j.client.id
      modifies this`reviews, this`hitl, this`log
      ensures View() == Exec(old(View()), Filing(j)) && log == old(log) + Filing(j)
    {
      hide Gate.Decide, Gate.Merge, Gate.Collected, Apply;
      var r, confidence := j.review, j.Verdict().confidence;
      ExecOne(View(), StatusUpdate(j));
      ExecSnoc(View(), [StatusUpdate(j)], Statement.Enqueue(r, ReasonOf(j)));
      match decision {
        case AutoPost =>
          if posted.Some? {
            UpdateReviewStatus(r, Posted, confidence, posted);
          } else {
            UpdateReviewStatus(r, Completed, confidence, None);
          }
        case ApprovalQueue =>
          UpdateReviewStatus(r, Queued, confidence, None);
          Enqueue(r, if j.errors != [] then AgentFailure else LowConfidence);
        case Escalate =>
          UpdateReviewStatus(r, Escalated, confidence, None);
          Enqueue(r, CriticalFinding);
      }
    }

    /** A complete run executes exactly the statements of `Plan`, in that order. */
    method RunReviewPipeline(j: Job)
      modifies this
      ensures View() == Exec(old(View()), Plan(j))
      ensures log == old(log) + Plan(j)
    {
      hide Posting, Inserts, Filing, Exec, Apply, Gate.Decide, Gate.Merge, Gate.Collected;
      ghost var start := View();
      var decision, posted := Post(j);
      InsertFindings(j);
      ExecConcat(start, Posting(j), Inserts(j));
      FileReview(j, decision, posted);
      ExecConcat(start, Posting(j) + Inserts(j), Filing(j));
      var outcome :=
        match decision
        case Escalate => Outcome.Escalate
        case ApprovalQueue => if j.errors != [] then CriticalBlock else RequestChanges
        case AutoPost => Outcome.Approve;
      ExecSnoc(start, Body(j), VerdictStatement(j));
      Emit(EmitVerdict(j.review, outcome, decision, j.Verdict().confidence));
    }
  }
}
