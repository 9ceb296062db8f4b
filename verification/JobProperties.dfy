/** What the lease protocol of durable jobs guarantees over whole runs. */
module JobProperties {
  import opened Prelude
  import opened Jobs
  import opened JobInvariant

  /** The claim is the job's current, unfinished lease. */
  predicate Holds(t: Table, c: Claim) {
    && c.key in t
    && t[c.key].row.state == Leased
    && t[c.key].row.leaseOwner == Some(c.owner)
    && t[c.key].row.attemptCount == c.attempt
  }

  // ---------------------------------------------------------------- one step

  predicate Grants(t: Table, s: Step, key: JobKey) {
    match s
    case DoClaim(k, w, now, d) => k == key && ClaimAny(t, k, w, now, d).1.Granted?
    case DoClaimSpecific(k, g, w, now, d) => k == key && ClaimSpecific(t, k, g, w, now, d).1.Granted?
    case _ => false
  }

  predicate Replays(t: Table, s: Step, key: JobKey) {
    s.DoReplay? && s.key == key && Replay(t, key, s.now).Ok?
  }

  /** The step does not finish the given job's lease. */
  predicate LeavesUnfinished(t: Table, s: Step, key: JobKey) {
    s.DoFinish? && s.claim.key == key ==> Finish(t, s.claim, s.outcome, s.now, s.retryAt).Err?
  }

  /** What one transaction can do to the lease columns of one job. */
  ghost predicate RowStep(t: Table, s: Step, key: JobKey, r: Row, r': Row) {
    && r'.attemptCount == r.attemptCount + (if Grants(t, s, key) then 1 else 0)
    && r'.orderId == r.orderId
    && (if Replays(t, s, key) then r'.state == Available && r'.maxAttempts <= r.maxAttempts + 10
        else r'.maxAttempts == r.maxAttempts)
    && (LeavesUnfinished(t, s, key) && Terminal(r'.state) ==> r.state == r'.state)
    && (!Grants(t, s, key) && r'.state == Leased ==> r.state == Leased && r'.leaseOwner == r.leaseOwner)
    && (LeavesUnfinished(t, s, key) && r.state == Leased && r.attemptCount == r.maxAttempts ==>
          r'.state == Leased && r'.attemptCount == r.attemptCount && r'.maxAttempts == r.maxAttempts)
  }

  function KeyOf(s: Step): JobKey {
    match s
    case DoFinish(c, _, _, _) => c.key
    case _ => s.key
  }

  lemma OtherJobsUntouched(t: Table, s: Step, key: JobKey)
    requires key in t && key != KeyOf(s)
    ensures key in Next(t, s) && Next(t, s)[key] == t[key]
  {
  }

  lemma ClaimRowSteps(t: Table, s: Step, key: JobKey)
    requires Inv(t) && key in t && key == KeyOf(s) && (s.DoClaim? || s.DoClaimSpecific?)
    ensures key in Next(t, s) && RowStep(t, s, key, t[key].row, Next(t, s)[key].row)
  {
    if s.DoClaimSpecific? { ClaimSpecificCases(t, key, s.generation, s.w, s.now, s.leaseFor); }
    if Grants(t, s, key) { assert Next(t, s)[key] == LeasedJob(t[key], s.w, s.now, s.leaseFor); }
    else { assert Next(t, s)[key] == t[key]; }
  }

  lemma FinishRowSteps(t: Table, s: Step, key: JobKey)
    requires Inv(t) && key in t && key == KeyOf(s) && s.DoFinish?
    ensures key in Next(t, s) && RowStep(t, s, key, t[key].row, Next(t, s)[key].row)
  {
    if Finish(t, s.claim, s.outcome, s.now, s.retryAt).Ok? {
      var j' := Next(t, s)[key];
      assert j' == FinishedJob(t[key], FinalOutcome(t[key], s.outcome), s.now, s.retryAt).value;
      assert j'.row.attemptCount == t[key].row.attemptCount && j'.row.maxAttempts == t[key].row.maxAttempts;
      assert j'.row.state != Leased;
    } else { assert Next(t, s) == t; }
  }

  lemma RecoverRowSteps(t: Table, s: Step, key: JobKey)
    requires Inv(t) && key in t && key == KeyOf(s) && s.DoRecover?
    ensures key in Next(t, s) && RowStep(t, s, key, t[key].row, Next(t, s)[key].row)
  {
    var j := t[key];
    assert JobInv(j);
    if Stale(j, s.now, s.grace) && RecoverOne(j, s.now).Some? {
      var j' := Next(t, s)[key];
      assert j' == NextGeneration(Released(j, s.now), s.now).value;
      assert j'.row == Released(j, s.now).row.(generation := j.row.generation + 1);
    } else { assert Next(t, s)[key] == j; }
  }

  lemma RowSteps(t: Table, s: Step, key: JobKey)
    requires Inv(t) && key in t
    ensures key in Next(t, s) && RowStep(t, s, key, t[key].row, Next(t, s)[key].row)
  {
    if key != KeyOf(s) {
      OtherJobsUntouched(t, s, key);
    } else if s.DoClaim? || s.DoClaimSpecific? {
      ClaimRowSteps(t, s, key);
    } else if s.DoFinish? {
      FinishRowSteps(t, s, key);
    } else if s.DoRecover? {
      RecoverRowSteps(t, s, key);
    } else {
      assert JobInv(t[key]);
    }
  }

  // ---------------------------------------------------------------- fencing

  /**
   `finish` compares owner and attempt but never the state.  On a good table that is enough: it
   commits exactly for the lease that is still held, and so never touches a terminal job.
   */
  lemma FinishExactlyForHolder(t: Table, c: Claim, outcome: Outcome, now: Time, retryAt: Option<Time>)
    requires Inv(t)
    ensures Finish(t, c, outcome, now, retryAt).Ok? <==>
              && Holds(t, c)
              && (outcome == Retrying && t[c.key].row.attemptCount < t[c.key].row.maxAttempts ==>
                    retryAt.Some? && t[c.key].row.generation < MAX_GENERATION)
  {
    if c.key in t {
      assert JobInv(t[c.key]);
      if Holds(t, c) {
        var final := FinalOutcome(t[c.key], outcome);
        if final == Retrying ==> retryAt.Some? { FinishedJobKeeps(t[c.key], final, now, retryAt); }
      }
    }
  }

  lemma HeartbeatExactlyForHolder(t: Table, c: Claim, until: Time)
    ensures Heartbeat(t, c.key, c.owner, c.attempt, until).1 <==> Holds(t, c)
    ensures !Holds(t, c) ==> Heartbeat(t, c.key, c.owner, c.attempt, until).0 == t
  {
  }

  /** The claim was issued and its lease has since ended. */
  predicate Superseded(t: Table, c: Claim) {
    c.key in t && c.attempt <= t[c.key].row.attemptCount && !Holds(t, c)
  }

  lemma SupersededStep(t: Table, c: Claim, s: Step)
    requires Inv(t) && Superseded(t, c)
    ensures Superseded(Next(t, s), c)
  {
    RowSteps(t, s, c.key);
  }

  /** A lost lease stays lost: in every continuation its heartbeat and its finish change nothing. */
  lemma {:induction false} SupersededForever(t: Table, c: Claim, steps: seq<Step>)
    requires Inv(t) && Superseded(t, c)
    ensures var t' := Run(t, steps);
            && Superseded(t', c)
            && (forall until :: Heartbeat(t', c.key, c.owner, c.attempt, until) == (t', false))
            && (forall o, now, r :: Finish(t', c, o, now, r) == Err(LeaseLost))
    decreases |steps|
  {
    if steps == [] {
      assert JobInv(t[c.key]);
    } else {
      SupersededStep(t, c, steps[0]);
      NextKeeps(t, steps[0]);
      SupersededForever(Next(t, steps[0]), c, steps[1..]);
    }
  }

  /** So each lease is finished at most once, however often and however late it is tried. */
  lemma FinishedAtMostOnce(t: Table, c: Claim, outcome: Outcome, now: Time, retryAt: Option<Time>, steps: seq<Step>)
    requires Inv(t) && Finish(t, c, outcome, now, retryAt).Ok?
    ensures var t' := Run(Finish(t, c, outcome, now, retryAt).value, steps);
            forall o, at, r :: Finish(t', c, o, at, r) == Err(LeaseLost)
  {
    var t1 := Finish(t, c, outcome, now, retryAt).value;
    FinishKeeps(t, c, outcome, now, retryAt);
    assert JobInv(t[c.key]);
    FinishedJobKeeps(t[c.key], FinalOutcome(t[c.key], outcome), now, retryAt);
    SupersededForever(t1, c, steps);
  }

  /** A claim of either kind: for a task's generation, or for any job that is due. */
  function ClaimEither(t: Table, key: JobKey, generation: Option<int>, w: Worker, now: Time, leaseFor: Time)
    : (Table, ClaimReply)
  {
    if generation.Some? then ClaimSpecific(t, key, generation.value, w, now, leaseFor)
    else ClaimAny(t, key, w, now, leaseFor)
  }

  /** A new grant, specific or not, supersedes every claim issued before it, in every continuation. */
  lemma GrantSupersedes(
      t: Table, earlier: Claim, generation: Option<int>, w: Worker, now: Time, leaseFor: Time, steps: seq<Step>)
    requires Inv(t) && earlier.key in t && earlier.attempt <= t[earlier.key].row.attemptCount
    requires ClaimEither(t, earlier.key, generation, w, now, leaseFor).1.Granted?
    ensures var r := ClaimEither(t, earlier.key, generation, w, now, leaseFor);
            && Holds(r.0, r.1.claim) && r.1.claim.attempt == t[earlier.key].row.attemptCount + 1
            && Superseded(Run(r.0, steps), earlier)
  {
    var r := ClaimEither(t, earlier.key, generation, w, now, leaseFor);
    LeaseKeeps(t, earlier.key, w, now, leaseFor);
    assert Superseded(r.0, earlier);
    SupersededForever(r.0, earlier, steps);
  }

  /** While a lease is unexpired nobody can claim the job or recover it. */
  lemma ActiveLeaseExcludes(t: Table, key: JobKey, generation: int, w: Worker, now: Time, leaseFor: Time, grace: Time)
    requires Inv(t) && key in t && t[key].row.state == Leased
    requires t[key].row.leaseUntil.Some? && t[key].row.leaseUntil.value >= now
    ensures ClaimAny(t, key, w, now, leaseFor) == (t, Nothing)
    ensures ClaimSpecific(t, key, generation, w, now, leaseFor).0 == t
    ensures !ClaimSpecific(t, key, generation, w, now, leaseFor).1.Granted?
    ensures Recover(t, key, now, grace) == t
  {
    assert JobInv(t[key]);
  }

  // ---------------------------------------------------------------- bounded work

  /** Leases granted to the job during the run. */
  function GrantCount(t: Table, steps: seq<Step>, key: JobKey): nat
    decreases |steps|
  {
    if steps == [] then 0
    else (if Grants(t, steps[0], key) then 1 else 0) + GrantCount(Next(t, steps[0]), steps[1..], key)
  }

  /** Operator replays of the job that committed during the run. */
  function ReplayCount(t: Table, steps: seq<Step>, key: JobKey): nat
    decreases |steps|
  {
    if steps == [] then 0
    else (if Replays(t, steps[0], key) then 1 else 0)
         + ReplayCount(Next(t, steps[0]), steps[1..], key)
  }

  /** Attempt numbers count grants exactly, and grants are bounded by the budget plus ten per replay. */
  lemma {:induction false} BoundedWork(t: Table, steps: seq<Step>, key: JobKey)
    requires Inv(t) && key in t
    ensures key in Run(t, steps)
    ensures Run(t, steps)[key].row.attemptCount == t[key].row.attemptCount + GrantCount(t, steps, key)
    ensures Run(t, steps)[key].row.maxAttempts <= t[key].row.maxAttempts + 10 * ReplayCount(t, steps, key)
    ensures t[key].row.attemptCount + GrantCount(t, steps, key)
              <= t[key].row.maxAttempts + 10 * ReplayCount(t, steps, key)
    decreases |steps|
  {
    if steps == [] {
      assert JobInv(t[key]);
    } else {
      NextKeeps(t, steps[0]);
      RowSteps(t, steps[0], key);
      BoundedWork(Next(t, steps[0]), steps[1..], key);
    }
  }

  // ---------------------------------------------------------------- no lost job

  /** The first instant at which an unfinished job can be claimed again. */
  function ReadyAt(j: Job): Time {
    if j.row.leaseUntil.Some? then Max(j.row.availableAt, j.row.leaseUntil.value + 1) else j.row.availableAt
  }

  /**
   Every unfinished job can be claimed under its current generation at every instant from some time
   on, except exactly a job leased on its last attempt.
   */
  lemma ClaimableExactly(t: Table, key: JobKey, w: Worker, now: Time, leaseFor: Time)
    requires Inv(t) && key in t && !Terminal(t[key].row.state)
    ensures ClaimSpecific(t, key, t[key].row.generation, w, now, leaseFor).1.Granted? <==>
              && now >= ReadyAt(t[key])
              && !(t[key].row.state == Leased && t[key].row.attemptCount == t[key].row.maxAttempts)
  {
    var j := t[key];
    assert JobInv(j);
    assert j.row.generation in j.dispatches;
    assert j.row.attemptCount + 1 !in j.attempts;
  }

  ghost predicate NeverFinishes(t: Table, steps: seq<Step>, key: JobKey)
    decreases |steps|
  {
    steps == [] || (LeavesUnfinished(t, steps[0], key) && NeverFinishes(Next(t, steps[0]), steps[1..], key))
  }

  /**
   The exception is real and permanent: a job whose worker dies on the last attempt stays leased in
   every run, because neither claims, recovery nor operator replay accept it.
   */
  lemma {:induction false} LastAttemptStaysLeased(t: Table, steps: seq<Step>, key: JobKey)
    requires Inv(t) && key in t && t[key].row.state == Leased && t[key].row.attemptCount == t[key].row.maxAttempts
    requires NeverFinishes(t, steps, key)
    ensures key in Run(t, steps)
    ensures Run(t, steps)[key].row.state == Leased
    ensures Run(t, steps)[key].row.attemptCount == Run(t, steps)[key].row.maxAttempts
    ensures GrantCount(t, steps, key) == 0
    decreases |steps|
  {
    if steps != [] {
      var s := steps[0];
      NextKeeps(t, s);
      RowSteps(t, s, key);
      LastAttemptStaysLeased(Next(t, s), steps[1..], key);
    }
  }

  /** A one-attempt job reaches the stuck state with its first claim. */
  lemma LastAttemptReachable(key: JobKey, w: Worker)
    ensures var t := Run(map[], [DoEnqueue(key, key.orderId, StampJob, 1, 0), DoClaim(key, w, 0, 1)]);
            key in t && t[key].row.state == Leased && t[key].row.attemptCount == t[key].row.maxAttempts
  {
    var steps := [DoEnqueue(key, key.orderId, StampJob, 1, 0), DoClaim(key, w, 0, 1)];
    var t1 := Next(map[], steps[0]);
    assert t1[key].row.attemptCount == 0 && Claimable(t1[key], 0);
    assert steps[1..] == [DoClaim(key, w, 0, 1)];
    assert steps[1..][1..] == [];
    assert Run(map[], steps) == Run(t1, steps[1..]);
    assert Run(t1, steps[1..]) == Run(Next(t1, steps[1..][0]), steps[1..][1..]);
  }

  // ---------------------------------------------------------------- exact generations

  /** A task delivered for a superseded generation is a no-op, now and in every continuation. */
  lemma OldGenerationIsNoOp(
      t: Table, steps: seq<Step>, key: JobKey, generation: int, w: Worker, now: Time, leaseFor: Time)
    requires Inv(t) && key in t && generation < t[key].row.generation
    ensures var t' := Run(t, steps);
            var r := ClaimSpecific(t', key, generation, w, now, leaseFor);
            r.0 == t' && !r.1.Granted? && (generation >= 1 ==> r.1 == Nothing)
  {
    RunKeeps(t, steps);
    var t' := Run(t, steps);
    assert JobExtends(t[key], t'[key]);
    assert JobInv(t'[key]);
    ClaimSpecificCases(t', key, generation, w, now, leaseFor);
    OldGenerationAnswer(t', key, generation, w, now, leaseFor);
  }

  lemma OldGenerationAnswer(t: Table, key: JobKey, generation: int, w: Worker, now: Time, leaseFor: Time)
    requires key in t && generation < t[key].row.generation && (generation >= 1 ==> generation in t[key].dispatches)
    ensures generation >= 1 ==> ClaimSpecific(t, key, generation, w, now, leaseFor).1 == Nothing
  {
  }
}
