/** When each job transaction succeeds on a good table, what it answers, and what it writes. */
module JobOutcomes {
  import opened Prelude
  import opened Jobs
  import opened JobProperties

  predicate Open(j: Job) { j.row.state == Available || j.row.state == Retry || j.row.state == Leased }

  /** The job under a new lease: the next attempt is the worker's. */
  function Taken(j: Job, w: Worker, now: Time, leaseFor: Time): Job {
    var n := j.row.attemptCount + 1;
    j.(row := j.row.(state := Leased, attemptCount := n, leaseOwner := Some(w), leaseUntil := Some(now + leaseFor)),
       attempts := j.attempts[n := Attempt(w, now, None, None)])
  }

  /** What the worker is handed. */
  function Handed(key: JobKey, j: Job, w: Worker): Claim {
    Claim(key, j.row.kind, j.row.orderId, j.row.maxAttempts, j.row.attemptCount + 1, w)
  }

  /** The job with its next generation, whose task is to be dispatched at this time. */
  function Rescheduled(j: Job, at: Time): Job {
    var g := j.row.generation + 1;
    j.(row := j.row.(generation := g), dispatches := j.dispatches[g := Dispatch(at, None, 0)])
  }

  /** The job with its newest attempt finished, and nobody's lease. */
  function Closed(j: Job, state: JobState, outcome: Outcome, now: Time): Job
    requires j.row.attemptCount in j.attempts
  {
    var n := j.row.attemptCount;
    j.(row := j.row.(state := state, leaseOwner := None, leaseUntil := None),
       attempts := j.attempts[n := j.attempts[n].(finishedAt := Some(now), outcome := Some(outcome))])
  }

  // ---------------------------------------------------------------- enqueue and claim

  /** A job is created exactly for a new key with at least one attempt, with its first dispatch row. */
  lemma EnqueuesExactly(t: Table, key: JobKey, orderId: OrderId, kind: Kind, maxAttempts: nat, at: Time)
    ensures var (t', created) := Enqueue(t, key, orderId, kind, maxAttempts, at);
            if key in t || maxAttempts == 0 then t' == t && !created
            else
              && created
              && t' == t[key := Job(Row(orderId, kind, Available, 1, 0, maxAttempts, at, None, None), map[],
                                    map[1 := Dispatch(at, None, 0)])]
  {
  }

  /** A general claim takes the job exactly when it is open, due, unleased and has an attempt left. */
  lemma ClaimsExactly(t: Table, key: JobKey, w: Worker, now: Time, leaseFor: Time)
    requires Inv(t)
    ensures var (t', reply) := ClaimAny(t, key, w, now, leaseFor);
            if && key in t && Open(t[key]) && t[key].row.availableAt <= now
               && (t[key].row.leaseUntil.Some? ==> t[key].row.leaseUntil.value < now)
               && t[key].row.attemptCount < t[key].row.maxAttempts
            then t' == t[key := Taken(t[key], w, now, leaseFor)] && reply == Granted(Handed(key, t[key], w))
            else t' == t && reply == Nothing
  {
    if key in t { assert JobInv(t[key]); }
  }

  /**
   The reply to a task.  One that comes too early, before its rows are committed, before the job is due, or while it is
   leased, is to be retried; one for an earlier generation, a finished job or an exhausted one is done with.
   */
  function TaskReply(t: Table, key: JobKey, generation: int, w: Worker, now: Time): ClaimReply {
    if generation < 1 then Refused("task_generation_invalid")
    else if key !in t then TaskRetry("specific_job_not_committed")
    else
      var row := t[key].row;
      if generation > row.generation then TaskRetry("specific_dispatch_not_committed")
      else if generation < row.generation || !Open(t[key]) then Nothing
      else if now < row.availableAt then TaskRetry("specific_job_not_due")
      else if row.leaseUntil.Some? && now <= row.leaseUntil.value then TaskRetry("specific_job_lease_active")
      else if row.attemptCount == row.maxAttempts then Nothing
      else Granted(Handed(key, t[key], w))
  }

  lemma ClaimsTaskExactly(t: Table, key: JobKey, generation: int, w: Worker, now: Time, leaseFor: Time)
    requires Inv(t)
    ensures var (t', reply) := ClaimSpecific(t, key, generation, w, now, leaseFor);
            && reply == TaskReply(t, key, generation, w, now)
            && t' == if reply.Granted? then t[key := Taken(t[key], w, now, leaseFor)] else t
  {
    if key in t { assert JobInv(t[key]); }
  }

  // ---------------------------------------------------------------- heartbeat and finish

  /** A heartbeat of the holder extends the lease and changes nothing else. */
  lemma ExtendsExactly(t: Table, c: Claim, until: Time)
    ensures Heartbeat(t, c.key, c.owner, c.attempt, until)
         == if Holds(t, c) then (t[c.key := t[c.key].(row := t[c.key].row.(leaseUntil := Some(until)))], true)
            else (t, false)
  {
  }

  /**
   How a finish ends.  Only the holder finishes.  A retry with an attempt left needs a time and a generation, and opens
   the next generation at that time; without an attempt left it is a dead letter.  Every other outcome is final.
   */
  ghost predicate FinishOutcome(t: Table, c: Claim, outcome: Outcome, now: Time, retryAt: Option<Time>,
                                result: Result<Table, FinishError>)
  {
    if !Holds(t, c) then result == Err(LeaseLost)
    else if c.attempt !in t[c.key].attempts then false
    else
      var j := t[c.key];
      var at := if retryAt.Some? then retryAt.value else j.row.availableAt;
      match outcome
      case Completed => result == Ok(t[c.key := Due(Closed(j, Complete, Completed, now), at)])
      case ToManualReview => result == Ok(t[c.key := Due(Closed(j, ManualReview, ToManualReview, now), at)])
      case ToDeadLetter => result == Ok(t[c.key := Due(Closed(j, DeadLetter, ToDeadLetter, now), at)])
      case Retrying =>
        if j.row.attemptCount == j.row.maxAttempts then
          result == Ok(t[c.key := Due(Closed(j, DeadLetter, ToDeadLetter, now), at)])
        else if retryAt.None? then result == Err(RetryTimeMissing)
        else if j.row.generation == 999_999_999 then result == Err(DispatchRefused)
        else result == Ok(t[c.key := Rescheduled(Due(Closed(j, Retry, Retrying, now), at), at)])
  }

  function Due(j: Job, at: Time): Job { j.(row := j.row.(availableAt := at)) }

  lemma FinishesExactly(t: Table, c: Claim, outcome: Outcome, now: Time, retryAt: Option<Time>)
    requires Inv(t)
    ensures FinishOutcome(t, c, outcome, now, retryAt, Finish(t, c, outcome, now, retryAt))
  {
    if c.key in t { assert JobInv(t[c.key]); }
  }

  // ---------------------------------------------------------------- the operator and recovery

  /** An operator replays exactly a job that waits for a retry: it is due at once, with at least ten more attempts. */
  lemma ReplaysExactly(t: Table, key: JobKey, now: Time)
    requires Inv(t)
    ensures var result := Replay(t, key, now);
            if key !in t then result == Err(JobNotFound)
            else
              var row := t[key].row;
              if row.state == ManualReview || row.state == DeadLetter then result == Err(TerminalRecovery)
              else if row.state != Retry then result == Err(NotReplayable)
              else if row.generation == 999_999_999 then result == Err(ReplayDispatchRefused)
              else
                var budget := if row.maxAttempts < row.attemptCount + 10 then row.attemptCount + 10
                  else row.maxAttempts;
                result == Ok(t[key := Rescheduled(
                  t[key].(row := row.(state := Available, availableAt := now, maxAttempts := budget)), now)])
  {
    if key in t { assert JobInv(t[key]); }
  }

  /** The job's newest task was accepted long ago, and the job is open, long due, unleased and has an attempt left. */
  predicate LongOverdue(j: Job, now: Time, grace: Time)
    requires j.row.generation in j.dispatches
  {
    var d := j.dispatches[j.row.generation];
    && d.dispatchedAt.Some? && d.dispatchedAt.value + grace <= now && d.scheduleAt + grace <= now
    && Open(j) && j.row.availableAt + grace <= now && j.row.attemptCount < j.row.maxAttempts
    && (j.row.leaseUntil.Some? ==> j.row.leaseUntil.value < now)
  }

  /** Recovery closes an expired lease as a retry, and dispatches the job again at once. */
  lemma RecoversExactly(t: Table, key: JobKey, now: Time, grace: Time)
    requires Inv(t) && key in t
    ensures t[key].row.generation in t[key].dispatches
    ensures Recover(t, key, now, grace)
         == if LongOverdue(t[key], now, grace) && t[key].row.generation < 999_999_999 then
              t[key := Rescheduled(
                if t[key].row.state == Leased && t[key].row.attemptCount in t[key].attempts
                then Closed(t[key], Available, Retrying, now) else t[key], now)]
            else t
  {
    var j := t[key];
    assert JobInv(j);
    assert Stale(j, now, grace) <==> LongOverdue(j, now, grace);
  }

  /** An answer of the task service is recorded once: an accepted task stays so, a refused one is tried again. */
  lemma RecordsExactly(t: Table, key: JobKey, generation: nat, now: Time, accepted: bool)
    ensures RecordDispatch(t, key, generation, now, accepted)
         == if key in t && generation in t[key].dispatches && t[key].dispatches[generation].dispatchedAt.None? then
              var d := t[key].dispatches[generation];
              t[key := t[key].(dispatches := t[key].dispatches[generation :=
                d.(tries := d.tries + 1, dispatchedAt := if accepted then Some(now) else None)])]
            else t
  {
  }
}
