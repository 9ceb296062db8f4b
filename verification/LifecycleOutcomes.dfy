/** What a worker makes of its handler's end: the job's outcome, and whether the order goes to manual review. */
module LifecycleOutcomes {
  import opened Prelude
  import opened Orders
  import opened Lifecycle
  import opened LifecycleProperties
  import J = Jobs
  import P = JobProperties
  import O = JobOutcomes

  /** The handler's end needs a human: it says so, or may not be retried any more. */
  predicate NeedsHuman(c: J.Claim, end: HandlerEnd) {
    end.NeedsReview? || (end.Retryable? && c.attempt == c.maxAttempts)
  }

  /** What the job becomes: complete, in review, a dead letter, or due again at the retry time. */
  function JobFinished(j: J.Job, outcome: J.Outcome, now: Time, retryAt: Time): J.Job
    requires j.row.attemptCount in j.attempts
  {
    match outcome
    case Completed => O.Closed(j, J.Complete, J.Completed, now)
    case ToManualReview => O.Closed(j, J.ManualReview, J.ToManualReview, now)
    case ToDeadLetter => O.Closed(j, J.DeadLetter, J.ToDeadLetter, now)
    case Retrying => O.Rescheduled(O.Due(O.Closed(j, J.Retry, J.Retrying, now), retryAt), retryAt)
  }

  /** What the handler's end makes of the run. */
  function OutcomeOf(c: J.Claim, end: HandlerEnd): J.Outcome {
    match end
    case Succeeded => J.Completed
    case NeedsReview(_) => J.ToManualReview
    case Retryable(_) => if c.attempt == c.maxAttempts then J.ToDeadLetter else J.Retrying
  }

  /** The job with its lease extended by the last heartbeat. */
  function Extended(j: J.Job, until: Time): J.Job { j.(row := j.row.(leaseUntil := Some(until))) }

  /** The job is to be retried, and its dispatch tasks are numbered to the last. */
  predicate NoGenerationLeft(j: J.Job, c: J.Claim, end: HandlerEnd) {
    OutcomeOf(c, end) == J.Retrying && j.row.generation == 999_999_999
  }

  /** The three steps that end a run. */
  function Ending(s: Sys, run: nat, end: HandlerEnd, until: Time, now: Time, retryAt: Time): Sys {
    var ended := Next(s, HandlerEnds(run, end, until));
    Next(Next(ended, RecordReview(run)), FinishRun(run, now, retryAt))
  }

  /**
   How a run ends that meets no other step.  A lost lease ends it without a trace.  A retry without a generation left is
   refused, and the lease stays.  Otherwise the job is finished as the handler's end says, and the order goes to manual
   review exactly when a human is needed.
   */
  ghost predicate RunOutcome(s: Sys, run: nat, end: HandlerEnd, until: Time, now: Time, retryAt: Time, s': Sys)
    requires run in s.runs && s.runs[run].Working?
  {
    var c := s.runs[run].claim;
    && run in s'.runs && s'.runs[run] == Ended
    && if !P.Holds(s.db.jobs, c) then s'.db == s.db
       else if NoGenerationLeft(s.db.jobs[c.key], c, end) then
         s'.db == s.db.(jobs := s.db.jobs[c.key := Extended(s.db.jobs[c.key], until)])
       else
         && c.orderId in s.db.orders && c.key in s'.db.jobs
         && var j, o := Extended(s.db.jobs[c.key], until), s.db.orders[c.orderId];
            && j.row.attemptCount in j.attempts
            && s'.db.orders == (if NeedsHuman(c, end) && o.fulfillment != InManualReview
                                then s.db.orders[c.orderId := o.(fulfillment := InManualReview)] else s.db.orders)
            && s'.db.jobs == s.db.jobs[c.key := JobFinished(j, OutcomeOf(c, end), now, retryAt)]
  }

  /** Where the handler's end leads the run. */
  function Decided(c: J.Claim, end: HandlerEnd): WorkerRun {
    match end
    case Succeeded => Finishing(c, J.Completed)
    case NeedsReview(code) => Reviewing(c, J.ToManualReview, code)
    case Retryable(code) =>
      if c.attempt == c.maxAttempts then Reviewing(c, J.ToDeadLetter, code) else Finishing(c, J.Retrying)
  }

  lemma DecidesExactly(s: Sys, run: nat, end: HandlerEnd, until: Time)
    requires Inv(s) && run in s.runs && s.runs[run].Working? && P.Holds(s.db.jobs, s.runs[run].claim)
    ensures var c, s1 := s.runs[run].claim, Next(s, HandlerEnds(run, end, until));
            && s1.db == s.db.(jobs := s.db.jobs[c.key := Extended(s.db.jobs[c.key], until)]) && s1.reviews == s.reviews
            && run in s1.runs
            && s1.runs[run] == Decided(c, end)
            && c.attempt <= c.maxAttempts == s.db.jobs[c.key].row.maxAttempts
  {
    var c := s.runs[run].claim;
    O.ExtendsExactly(s.db.jobs, c, until);
    assert RunInv(s.runs[run], s.db.orders, s.db.jobs);
    assert J.JobInv(s.db.jobs[c.key]);
  }

  lemma ReviewsExactly(s: Sys, run: nat)
    requires Inv(s) && run in s.runs && s.runs[run].Reviewing?
    ensures var c, s1 := s.runs[run].claim, Next(s, RecordReview(run));
            && c.orderId in s.db.orders && s1.db.jobs == s.db.jobs && run in s1.runs
            && s1.runs[run] == Finishing(c, s.runs[run].outcome)
            && s1.db.orders == s.db.orders[c.orderId := s.db.orders[c.orderId].(fulfillment := InManualReview)]
            && s1.db.events == s.db.events
  {
    var c := s.runs[run].claim;
    assert RunInv(s.runs[run], s.db.orders, s.db.jobs);
    assert JobOrderInv(c.key, s.db.jobs[c.key], s.db.orders);
    if (c.orderId, s.runs[run].code) in s.reviews {
      assert s.db.orders[c.orderId].fulfillment == InManualReview;
      assert s.db.orders[c.orderId := s.db.orders[c.orderId]] == s.db.orders;
    }
  }

  lemma FinishesRun(s: Sys, run: nat, now: Time, retryAt: Time)
    requires Inv(s) && run in s.runs && s.runs[run].Finishing?
    requires P.Holds(s.db.jobs, s.runs[run].claim)
    requires s.runs[run].outcome == J.Retrying ==>
               s.db.jobs[s.runs[run].claim.key].row.generation < J.MAX_GENERATION
    ensures var Finishing(c, outcome) := s.runs[run];
            var s1, j := Next(s, FinishRun(run, now, retryAt)), s.db.jobs[c.key];
            && s1.runs == s.runs[run := Ended] && s1.db.orders == s.db.orders && s1.db.events == s.db.events
            && j.row.attemptCount in j.attempts
            && s1.db.jobs == s.db.jobs[c.key := JobFinished(j, outcome, now, retryAt)]
  {
    var Finishing(c, outcome) := s.runs[run];
    assert RunInv(s.runs[run], s.db.orders, s.db.jobs);
    assert J.JobInv(s.db.jobs[c.key]);
    O.FinishesExactly(s.db.jobs, c, outcome, now, if outcome == J.Retrying then Some(retryAt) else None);
  }

  /** A run that still holds its lease, before its finish: the order is reviewed exactly when a human is needed. */
  lemma ReachesFinish(s: Sys, run: nat, end: HandlerEnd, until: Time)
    requires Inv(s) && run in s.runs && s.runs[run].Working? && P.Holds(s.db.jobs, s.runs[run].claim)
    ensures var c, s2 := s.runs[run].claim, Next(Next(s, HandlerEnds(run, end, until)), RecordReview(run));
            && Inv(s2) && run in s2.runs && s2.runs[run] == Finishing(c, OutcomeOf(c, end))
            && s2.db.jobs == s.db.jobs[c.key := Extended(s.db.jobs[c.key], until)]
            && c.orderId in s.db.orders
            && var o := s.db.orders[c.orderId];
               s2.db.orders == if NeedsHuman(c, end) && o.fulfillment != InManualReview
                               then s.db.orders[c.orderId := o.(fulfillment := InManualReview)] else s.db.orders
  {
    var c := s.runs[run].claim;
    DecidesExactly(s, run, end, until);
    NextKeeps(s, HandlerEnds(run, end, until));
    var s1 := Next(s, HandlerEnds(run, end, until));
    assert RunInv(s.runs[run], s.db.orders, s.db.jobs);
    assert JobOrderInv(c.key, s.db.jobs[c.key], s.db.orders);
    if s1.runs[run].Reviewing? {
      ReviewsExactly(s1, run);
      NextKeeps(s1, RecordReview(run));
      assert s.db.orders[c.orderId := s.db.orders[c.orderId]] == s.db.orders;
    }
  }

  lemma HeldRunEnds(s: Sys, run: nat, end: HandlerEnd, until: Time, now: Time, retryAt: Time)
    requires Inv(s) && run in s.runs && s.runs[run].Working? && P.Holds(s.db.jobs, s.runs[run].claim)
    requires !NoGenerationLeft(s.db.jobs[s.runs[run].claim.key], s.runs[run].claim, end)
    ensures RunOutcome(s, run, end, until, now, retryAt, Ending(s, run, end, until, now, retryAt))
  {
    var c := s.runs[run].claim;
    ReachesFinish(s, run, end, until);
    var s2 := Next(Next(s, HandlerEnds(run, end, until)), RecordReview(run));
    assert J.JobInv(s.db.jobs[c.key]);
    FinishesRun(s2, run, now, retryAt);
    var j := Extended(s.db.jobs[c.key], until);
    assert s2.db.jobs[c.key := JobFinished(j, OutcomeOf(c, end), now, retryAt)]
        == s.db.jobs[c.key := JobFinished(j, OutcomeOf(c, end), now, retryAt)];
  }

  lemma RefusedRunEnds(s: Sys, run: nat, end: HandlerEnd, until: Time, now: Time, retryAt: Time)
    requires Inv(s) && run in s.runs && s.runs[run].Working? && P.Holds(s.db.jobs, s.runs[run].claim)
    requires NoGenerationLeft(s.db.jobs[s.runs[run].claim.key], s.runs[run].claim, end)
    ensures RunOutcome(s, run, end, until, now, retryAt, Ending(s, run, end, until, now, retryAt))
  {
    DecidesExactly(s, run, end, until);
    NextKeeps(s, HandlerEnds(run, end, until));
    var s1 := Next(s, HandlerEnds(run, end, until));
    assert J.JobInv(s.db.jobs[s.runs[run].claim.key]);
    O.FinishesExactly(s1.db.jobs, s.runs[run].claim, J.Retrying, now, Some(retryAt));
  }

  lemma UnknownKindReviews(s: Sys, run: nat)
    requires Inv(s) && run in s.runs && s.runs[run].Working? && s.runs[run].claim.kind == J.OtherJob
    ensures var c, s2 := s.runs[run].claim, Next(Next(s, UnknownKind(run)), RecordReview(run));
            && run in s2.runs && s2.runs[run] == Finishing(c, J.ToManualReview) && s2.db.jobs == s.db.jobs
            && c.orderId in s2.db.orders && s2.db.orders[c.orderId].fulfillment == InManualReview
  {
    NextKeeps(s, UnknownKind(run));
    ReviewsExactly(Next(s, UnknownKind(run)), run);
  }

  /**
   A run whose job is of no known kind has no handler: its order goes to manual review, and so does its job if the run
   still holds the lease.  A job of a known kind never ends this way.
   */
  lemma UnknownKindEnds(s: Sys, run: nat, now: Time, retryAt: Time)
    requires Inv(s) && run in s.runs && s.runs[run].Working?
    ensures var c, s1 := s.runs[run].claim, Next(s, UnknownKind(run));
            var s2 := Next(Next(s1, RecordReview(run)), FinishRun(run, now, retryAt));
            if c.kind != J.OtherJob then s1 == s
            else
              && run in s2.runs && s2.runs[run] == Ended
              && c.orderId in s2.db.orders && s2.db.orders[c.orderId].fulfillment == InManualReview
              && s2.db.jobs == if !P.Holds(s.db.jobs, c) || c.attempt !in s.db.jobs[c.key].attempts then s.db.jobs
                               else s.db.jobs[c.key := JobFinished(s.db.jobs[c.key], J.ToManualReview, now, retryAt)]
  {
    var c := s.runs[run].claim;
    if c.kind == J.OtherJob {
      UnknownKindReviews(s, run);
      O.FinishesExactly(s.db.jobs, c, J.ToManualReview, now, None);
    }
  }

  /** Every run that holds its lease, or has lost it, ends like this when it meets no other step. */
  lemma RunEndsExactly(s: Sys, run: nat, end: HandlerEnd, until: Time, now: Time, retryAt: Time)
    requires Inv(s) && run in s.runs && s.runs[run].Working?
    ensures RunOutcome(s, run, end, until, now, retryAt, Ending(s, run, end, until, now, retryAt))
  {
    var c := s.runs[run].claim;
    if !P.Holds(s.db.jobs, c) {
      O.ExtendsExactly(s.db.jobs, c, until);
    } else if NoGenerationLeft(s.db.jobs[c.key], c, end) {
      RefusedRunEnds(s, run, end, until, now, retryAt);
    } else {
      HeldRunEnds(s, run, end, until, now, retryAt);
    }
  }
}
