/** The job store as the worker sees it: methods that update the tables in place. */
module JobStore {
  import opened Prelude
  import opened Jobs

  class SqlJobClaimStore {
    var jobs: Table

    constructor ()
      ensures jobs == map[]
    {
      jobs := map[];
    }

    /** An `IntegrityError` on the job key rolls the insert back and reports `false`. */
    method EnqueueOnce(key: JobKey, orderId: OrderId, kind: Kind, maxAttempts: nat, at: Time) returns (created: bool)
      modifies this
      ensures (jobs, created) == Enqueue(old(jobs), key, orderId, kind, maxAttempts, at)
    {
      if maxAttempts < 1 || key in jobs { return false; }
      var row := Row(orderId, kind, Available, 1, 0, maxAttempts, at, None, None);
      jobs := jobs[key := Job(row, map[], map[1 := Dispatch(at, None, 0)])];
      created := true;
    }

    method ClaimSpecificJob(key: JobKey, generation: int, w: Worker, now: Time, leaseFor: Time)
      returns (reply: ClaimReply)
      modifies this
      ensures (jobs, reply) == ClaimSpecific(old(jobs), key, generation, w, now, leaseFor)
    {
      if generation < 1 { return Refused("task_generation_invalid"); }
      if key !in jobs { return TaskRetry("specific_job_not_committed"); }
      var job := jobs[key];
      if generation !in job.dispatches { return TaskRetry("specific_dispatch_not_committed"); }
      if job.row.generation != generation { return Nothing; }
      if job.row.state !in {Available, Retry, Leased} { return Nothing; }
      if job.row.availableAt > now { return TaskRetry("specific_job_not_due"); }
      if job.row.leaseUntil.Some? && job.row.leaseUntil.value >= now {
        return TaskRetry("specific_job_lease_active");
      }
      if job.row.attemptCount >= job.row.maxAttempts { return Nothing; }
      reply := LeaseRow(key, w, now, leaseFor);
    }

    /** `claim`: some row of the query's answer, or nothing when the answer is empty. */
    method ClaimNext(w: Worker, now: Time, leaseFor: Time) returns (reply: ClaimReply)
      modifies this
      ensures reply == Nothing ==> jobs == old(jobs) && forall k :: k in old(jobs) ==> !Claimable(old(jobs)[k], now)
      ensures reply != Nothing ==>
                exists k :: k in old(jobs) && Claimable(old(jobs)[k], now)
                         && (jobs, reply) == ClaimAny(old(jobs), k, w, now, leaseFor)
    {
      var answer := set k | k in jobs && Claimable(jobs[k], now);
      if answer == {} {
        assert forall k :: k in jobs && Claimable(jobs[k], now) ==> k in answer;
        return Nothing;
      }
      var key :| key in answer;
      reply := LeaseRow(key, w, now, leaseFor);
      assert (jobs, reply) == ClaimAny(old(jobs), key, w, now, leaseFor);
    }

    method LeaseRow(key: JobKey, w: Worker, now: Time, leaseFor: Time) returns (reply: ClaimReply)
      requires key in jobs
      modifies this
      ensures (jobs, reply) == Lease(old(jobs), key, w, now, leaseFor)
    {
      var job := jobs[key];
      var number := job.row.attemptCount + 1;
      if number in job.attempts { return Refused("integrity_error"); }
      var row := job.row.(attemptCount := number);
      row := row.(state := Leased);
      row := row.(leaseOwner := Some(w));
      row := row.(leaseUntil := Some(now + leaseFor));
      jobs := jobs[key := job.(row := row, attempts := job.attempts[number := Attempt(w, now, None, None)])];
      reply := Granted(Claim(key, row.kind, row.orderId, row.maxAttempts, number, w));
    }

    method HeartbeatLease(key: JobKey, w: Worker, attempt: nat, until: Time) returns (held: bool)
      modifies this
      ensures (jobs, held) == Heartbeat(old(jobs), key, w, attempt, until)
    {
      if key !in jobs { return false; }
      var row := jobs[key].row;
      if row.leaseOwner != Some(w) || row.attemptCount != attempt || row.state != Leased { return false; }
      jobs := jobs[key := jobs[key].(row := row.(leaseUntil := Some(until)))];
      held := true;
    }

    method FinishJob(c: Claim, outcome: Outcome, now: Time, retryAt: Option<Time>) returns (error: Option<FinishError>)
      modifies this
      ensures match Finish(old(jobs), c, outcome, now, retryAt)
              case Ok(t) => jobs == t && error == None
              case Err(e) => jobs == old(jobs) && error == Some(e)
    {
      if c.key !in jobs { return Some(LeaseLost); }
      var stored := jobs[c.key];
      if stored.row.leaseOwner != Some(c.owner) || stored.row.attemptCount != c.attempt { return Some(LeaseLost); }
      var number := stored.row.attemptCount;
      if number !in stored.attempts { return Some(AttemptMissing); }
      var final := outcome;
      if outcome == Retrying && stored.row.attemptCount >= stored.row.maxAttempts { final := ToDeadLetter; }
      if final == Retrying && retryAt.None? { return Some(RetryTimeMissing); }
      var row := stored.row.(state := StateOf(final));
      if retryAt.Some? { row := row.(availableAt := retryAt.value); }
      row := row.(leaseOwner := None, leaseUntil := None);
      var attempt := stored.attempts[number].(finishedAt := Some(now), outcome := Some(final));
      var next := Job(row, stored.attempts[number := attempt], stored.dispatches);
      if final == Retrying {
        next := next.(row := next.row.(generation := next.row.generation + 1));
        var dispatched := AddDispatch(next, retryAt.value);
        if dispatched.None? { return Some(DispatchRefused); }
        next := dispatched.value;
      }
      jobs := jobs[c.key := next];
      error := None;
    }

    method ReplayJob(key: JobKey, now: Time) returns (error: Option<ReplayError>)
      modifies this
      ensures match Replay(old(jobs), key, now)
              case Ok(t) => jobs == t && error == None
              case Err(e) => jobs == old(jobs) && error == Some(e)
    {
      if key !in jobs { return Some(JobNotFound); }
      var job := jobs[key];
      if job.row.state in {ManualReview, DeadLetter} { return Some(TerminalRecovery); }
      if job.row.state != Retry { return Some(NotReplayable); }
      var row := job.row.(state := Available, availableAt := now);
      row := row.(leaseOwner := None, leaseUntil := None);
      row := row.(maxAttempts := if row.maxAttempts < row.attemptCount + 10 then row.attemptCount + 10
                                 else row.maxAttempts);
      row := row.(generation := row.generation + 1);
      var dispatched := AddDispatch(job.(row := row), now);
      if dispatched.None? { return Some(ReplayDispatchRefused); }
      jobs := jobs[key := dispatched.value];
      error := None;
    }

    method RecordTask(key: JobKey, generation: nat, now: Time, accepted: bool) returns (dispatched: bool)
      modifies this
      ensures jobs == RecordDispatch(old(jobs), key, generation, now, accepted)
      ensures dispatched <==> accepted && jobs != old(jobs)
    {
      if key !in jobs || generation !in jobs[key].dispatches { return false; }
      var d := jobs[key].dispatches[generation];
      if d.dispatchedAt.Some? { return false; }
      d := d.(tries := d.tries + 1);
      if accepted { d := d.(dispatchedAt := Some(now)); }
      jobs := jobs[key := jobs[key].(dispatches := jobs[key].dispatches[generation := d])];
      assert jobs[key].dispatches[generation] == d;
      dispatched := accepted;
    }

    /**
     The locking transaction of `recover_stale_dispatched`: up to `limit` stale jobs, all or none.
     It acts as one recovery after another, and leaves a stale job behind only when the limit is met.
     */
    method RecoverStale(now: Time, grace: Time, limit: int) returns (ok: bool, recovered: seq<JobKey>)
      modifies this
      ensures !ok ==> jobs == old(jobs)
      ensures ok ==> 1 <= limit <= 1000 && MIN_STALE_GRACE <= grace <= MAX_STALE_GRACE
      ensures ok ==> |recovered| <= limit
      ensures ok ==> jobs == Run(old(jobs), Recoveries(recovered, now, grace))
      ensures ok ==> jobs.Keys == old(jobs).Keys
      ensures ok ==> forall k :: k in recovered ==>
                k in old(jobs) && Stale(old(jobs)[k], now, grace) && !Stale(jobs[k], now, grace)
      ensures ok && |recovered| < limit ==>
                forall k :: k in old(jobs) && Stale(old(jobs)[k], now, grace) ==> k in recovered
    {
      recovered := [];
      if !(1 <= limit <= 1000) || !(MIN_STALE_GRACE <= grace <= MAX_STALE_GRACE) { return false, []; }
      var table;
      ok, table, recovered := RecoverSelected(jobs, now, grace, limit);
      if ok { jobs := table; }
    }

    static method RecoverSelected(before: Table, now: Time, grace: Time, limit: nat)
      returns (ok: bool, table: Table, recovered: seq<JobKey>)
      ensures ok ==> |recovered| <= limit && table == Run(before, Recoveries(recovered, now, grace))
      ensures ok ==> table.Keys == before.Keys
      ensures ok ==> forall k :: k in recovered ==>
                k in before && Stale(before[k], now, grace) && !Stale(table[k], now, grace)
      ensures ok && |recovered| < limit ==> forall k :: k in before && Stale(before[k], now, grace) ==> k in recovered
    {
      table, recovered := before, [];
      var selected := set k | k in before && Stale(before[k], now, grace);
      while selected != {} && |recovered| < limit
        invariant |recovered| <= limit && table.Keys == before.Keys
        invariant forall k :: k in selected ==> k in before && Stale(before[k], now, grace) && table[k] == before[k]
        invariant forall k :: k in before && Stale(before[k], now, grace) ==> k in selected || k in recovered
        invariant forall k :: k in recovered ==>
                    k in before && k !in selected && Stale(before[k], now, grace) && !Stale(table[k], now, grace)
        invariant table == Run(before, Recoveries(recovered, now, grace))
        decreases selected
      {
        var key :| key in selected;
        var dispatched := RecoverRow(table[key], now);
        if dispatched.None? { return false, before, []; }
        RunRecoveriesSnoc(before, recovered, key, now, grace);
        RecoveredIsFresh(table[key], now, grace);
        table := table[key := dispatched.value];
        recovered := recovered + [key];
        selected := selected - {key};
      }
      ok := true;
    }

    static method RecoverRow(stale: Job, now: Time) returns (recovered: Option<Job>)
      ensures recovered == RecoverOne(stale, now)
    {
      var job := stale;
      if job.row.leaseOwner.Some? {
        var number := job.row.attemptCount;
        if number in job.attempts && job.attempts[number].finishedAt.None? {
          var expired := job.attempts[number].(finishedAt := Some(now), outcome := Some(Retrying));
          job := job.(attempts := job.attempts[number := expired]);
        }
        job := job.(row := job.row.(state := Available, leaseOwner := None, leaseUntil := None));
      }
      job := job.(row := job.row.(generation := job.row.generation + 1));
      recovered := AddDispatch(job, now);
    }
  }

  /** A recovered job waits for its new task, so it is not selected again. */
  lemma RecoveredIsFresh(j: Job, now: Time, grace: Time)
    ensures RecoverOne(j, now).Some? ==> !Stale(RecoverOne(j, now).value, now, grace)
  {
  }

  /** The recovery steps of the given jobs, in order. */
  function Recoveries(keys: seq<JobKey>, now: Time, grace: Time): (steps: seq<Step>)
    ensures |steps| == |keys| && forall i :: 0 <= i < |keys| ==> steps[i] == DoRecover(keys[i], now, grace)
  {
    seq(|keys|, i requires 0 <= i < |keys| => DoRecover(keys[i], now, grace))
  }

  lemma {:induction false} RunSnoc(t: Table, steps: seq<Step>, s: Step)
    ensures Run(t, steps + [s]) == Next(Run(t, steps), s)
    decreases |steps|
  {
    if steps == [] {
      assert ([s])[1..] == [];
      assert Run(t, [s]) == Run(Next(t, s), []);
    } else {
      assert (steps + [s])[1..] == steps[1..] + [s];
      RunSnoc(Next(t, steps[0]), steps[1..], s);
    }
  }

  lemma RunRecoveriesSnoc(t: Table, keys: seq<JobKey>, key: JobKey, now: Time, grace: Time)
    ensures Run(t, Recoveries(keys + [key], now, grace))
            == Recover(Run(t, Recoveries(keys, now, grace)), key, now, grace)
  {
    assert Recoveries(keys + [key], now, grace) == Recoveries(keys, now, grace) + [DoRecover(key, now, grace)];
    RunSnoc(t, Recoveries(keys, now, grace), DoRecover(key, now, grace));
  }
}
