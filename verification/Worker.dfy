/**
 * The queue's job around a pipeline run. A run that raises part of the way is reported by an error event;
 * writing that event is a statement of its own, and can itself raise.
 */
module Worker {
  import opened Common
  import Gate
  import Pipeline

  /** How a job ends: with the run's result, with an error result, or by raising after all. */
  datatype JobEnd = Finished | Reported | Raises

  /** The statements that a run gets through: all of them, or those before the one that raises. */
  function Through(j: Pipeline.Job, raisesAt: Option<nat>): seq<Pipeline.Statement> {
    var plan := Pipeline.Plan(j);
    match raisesAt
    case Some(n) => if n < |plan| then plan[..n] else plan
    case None => plan
  }

  predicate RunRaises(j: Pipeline.Job, raisesAt: Option<nat>) {
    raisesAt.Some? && raisesAt.value < |Pipeline.Plan(j)|
  }

  /** Of its plan a job executes what comes before the statement that raises, or everything, and nothing else. */
  lemma {:induction false} ExecutedUpToTheRaise(j: Pipeline.Job, raisesAt: Option<nat>)
    ensures var done, plan := Through(j, raisesAt), Pipeline.Plan(j);
            && |done| == (if RunRaises(j, raisesAt) then raisesAt.value else |plan|)
            && |done| <= |plan| && (forall k | 0 <= k < |done| :: done[k] == plan[k])
  {
    hide Pipeline.Plan;
  }

  /** Verdict events and error events of a job. Only a job that raises leaves neither. */
  lemma {:induction false} OneEventUnlessItRaises(j: Pipeline.Job, raisesAt: Option<nat>, canReport: bool)
    ensures var verdicts := Pipeline.Adds(Through(j, raisesAt), j.review).verdicts;
            var errors := if RunRaises(j, raisesAt) && canReport then 1 else 0;
            && verdicts == (if RunRaises(j, raisesAt) then 0 else 1)
            && (verdicts + errors == 1 <==> !(RunRaises(j, raisesAt) && !canReport))
  {
    hide Pipeline.Plan, Pipeline.Adds;
    Pipeline.PlanAdds(j, j.review);
    if RunRaises(j, raisesAt) {
      Pipeline.StoppedRunAddsNoVerdict(j, raisesAt.value, j.review);
    }
  }

  class JobWorker {
    const database: Pipeline.Database
    /** The error events written by jobs. */
    var errors: seq<ReviewId>

    constructor (database: Pipeline.Database)
      ensures this.database == database && errors == []
    {
      this.database := database;
      errors := [];
    }

    /** Executes statements one by one; the one after them is the one that raises. */
    method RunUntil(j: Pipeline.Job, n: nat)
      requires n <= |Pipeline.Plan(j)|
      modifies database
      ensures database.View() == Pipeline.Exec(old(database.View()), Pipeline.Plan(j)[..n])
      ensures database.log == old(database.log) + Pipeline.Plan(j)[..n]
    {
      hide Pipeline.Plan, Pipeline.Apply, Pipeline.Exec;
      ghost var start, log := database.View(), database.log;
      var plan := Pipeline.Plan(j);
      Nothing(start, plan);
      assert log + plan[..0] == log;
      for k := 0 to n
        invariant database.View() == Pipeline.Exec(start, plan[..k])
        invariant database.log == log + plan[..k]
      {
        PrefixSnoc(plan, k);
        Pipeline.ExecSnoc(start, plan[..k], plan[k]);
        assert log + plan[..k] + [plan[k]] == log + plan[..k + 1];
        database.Execute(plan[k]);
      }
    }

    /**
     * One job of the queue, which has no GitHub client. `raisesAt` is the statement at which the run
     * raises, if any, and `canReport` says whether its error event can be written.
     */
    method PipelineJob(j: Pipeline.Job, raisesAt: Option<nat>, canReport: bool) returns (end: JobEnd)
      requires j.client == Pipeline.Absent
      modifies this, database
      ensures database.View() == Pipeline.Exec(old(database.View()), Through(j, raisesAt))
      ensures database.log == old(database.log) + Through(j, raisesAt)
      ensures errors == old(errors) + (if end == Reported then [j.review] else [])
      ensures end == Finished <==> !RunRaises(j, raisesAt)
      ensures end == Raises <==> RunRaises(j, raisesAt) && !canReport
    {
      hide Pipeline.Plan, Pipeline.Apply, Pipeline.Exec;
      if raisesAt.Some? && raisesAt.value < |Pipeline.Plan(j)| {
        RunUntil(j, raisesAt.value);
        if canReport {
          errors := errors + [j.review];
          end := Reported;
        } else {
          end := Raises;
        }
      } else {
        database.RunReviewPipeline(j);
        end := Finished;
      }
    }
  }

  lemma {:induction false} Nothing(t: Pipeline.Tables, plan: seq<Pipeline.Statement>)
    ensures Pipeline.Exec(t, plan[..0]) == t
  {
  }
}
