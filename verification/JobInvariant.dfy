/** Every job transaction keeps the lease invariant and takes no history back. */
module JobInvariant {
  import opened Prelude
  import opened Jobs

  // ---------------------------------------------------------------- one job

  lemma JobExtendsRefl(j: Job)
    ensures JobExtends(j, j)
  {
  }

  lemma JobExtendsTrans(a: Job, b: Job, c: Job)
    requires JobExtends(a, b) && JobExtends(b, c)
    ensures JobExtends(a, c)
  {
    forall n | n in a.attempts ensures n in c.attempts && AttemptExtends(a.attempts[n], c.attempts[n]) {
      assert n in b.attempts;
    }
    forall g | g in a.dispatches ensures g in c.dispatches && DispatchExtends(a.dispatches[g], c.dispatches[g]) {
      assert g in b.dispatches;
    }
  }

  lemma LeasedJobKeeps(j: Job, w: Worker, now: Time, leaseFor: Time)
    requires JobInv(j) && j.row.state in {Available, Retry, Leased} && j.row.attemptCount < j.row.maxAttempts
    ensures j.row.attemptCount + 1 !in j.attempts
    ensures JobInv(LeasedJob(j, w, now, leaseFor)) && JobExtends(j, LeasedJob(j, w, now, leaseFor))
  {
  }

  /** Opening a generation never meets the unique constraint; only the nine-digit name limit refuses it. */
  lemma NextGenerationKeeps(j: Job, at: Time)
    requires JobInv(j)
    ensures NextGeneration(j, at).Some? <==> j.row.generation < MAX_GENERATION
    ensures NextGeneration(j, at).Some? ==>
              var j' := NextGeneration(j, at).value;
              JobInv(j') && (!Terminal(j.row.state) ==> JobExtends(j, j'))
  {
  }

  lemma FinishedJobKeeps(j: Job, final: Outcome, now: Time, retryAt: Option<Time>)
    requires JobInv(j) && j.row.state == Leased
    requires final == Retrying ==> retryAt.Some? && j.row.attemptCount < j.row.maxAttempts
    ensures FinishedJob(j, final, now, retryAt).None? <==> (final == Retrying && j.row.generation == MAX_GENERATION)
    ensures FinishedJob(j, final, now, retryAt).Some? ==>
              var j' := FinishedJob(j, final, now, retryAt).value;
              JobInv(j') && JobExtends(j, j') && !(j'.row.state == Leased)
  {
    if final == Retrying {
      var n := j.row.attemptCount;
      var mid := Job(j.row.(state := Retry, availableAt := retryAt.value, leaseOwner := None, leaseUntil := None),
                     j.attempts[n := j.attempts[n].(finishedAt := Some(now), outcome := Some(Retrying))], j.dispatches);
      assert JobInv(mid) && JobExtends(j, mid);
      NextGenerationKeeps(mid, retryAt.value);
      assert FinishedJob(j, final, now, retryAt) == NextGeneration(mid, retryAt.value);
      if j.row.generation < MAX_GENERATION { JobExtendsTrans(j, mid, NextGeneration(mid, retryAt.value).value); }
    }
  }

  lemma ReplayedJobKeeps(j: Job, now: Time)
    requires JobInv(j) && j.row.state == Retry
    ensures ReplayedJob(j, now).Some? <==> j.row.generation < MAX_GENERATION
    ensures ReplayedJob(j, now).Some? ==>
              var j' := ReplayedJob(j, now).value;
              JobInv(j') && JobExtends(j, j') && j'.row.maxAttempts <= j.row.maxAttempts + 10
  {
    var mid := j.(row := j.row.(state := Available, availableAt := now, leaseOwner := None, leaseUntil := None,
                                maxAttempts := Max(j.row.maxAttempts, j.row.attemptCount + 10)));
    assert JobInv(mid) && JobExtends(j, mid);
    NextGenerationKeeps(mid, now);
    if j.row.generation < MAX_GENERATION { JobExtendsTrans(j, mid, NextGeneration(mid, now).value); }
  }

  lemma RecoverOneKeeps(j: Job, now: Time)
    requires JobInv(j) && j.row.state in {Available, Retry, Leased} && j.row.attemptCount < j.row.maxAttempts
    ensures RecoverOne(j, now).Some? <==> j.row.generation < MAX_GENERATION
    ensures RecoverOne(j, now).Some? ==>
              JobInv(RecoverOne(j, now).value) && JobExtends(j, RecoverOne(j, now).value)
  {
    var mid := Released(j, now);
    assert JobInv(mid) && JobExtends(j, mid);
    NextGenerationKeeps(mid, now);
    if j.row.generation < MAX_GENERATION { JobExtendsTrans(j, mid, NextGeneration(mid, now).value); }
  }

  lemma DispatchedJobKeeps(j: Job, generation: nat, now: Time, accepted: bool)
    requires JobInv(j) && generation in j.dispatches && j.dispatches[generation].dispatchedAt.None?
    ensures var j' := DispatchedJob(j, generation, now, accepted); JobInv(j') && JobExtends(j, j')
  {
  }

  // ---------------------------------------------------------------- the table

  /** Replacing one job by a good later version of itself is all any transaction does. */
  lemma ReplaceKeeps(t: Table, key: JobKey, j: Job)
    requires Inv(t) && key in t && JobInv(j) && JobExtends(t[key], j)
    ensures Inv(t[key := j]) && Extends(t, t[key := j])
  {
    forall k | k in t ensures JobExtends(t[k], t[key := j][k]) {
      JobExtendsRefl(t[k]);
    }
  }

  lemma LeaseKeeps(t: Table, key: JobKey, w: Worker, now: Time, leaseFor: Time)
    requires Inv(t) && key in t && t[key].row.state in {Available, Retry, Leased}
    requires t[key].row.attemptCount < t[key].row.maxAttempts
    ensures var r := Lease(t, key, w, now, leaseFor);
            r.1.Granted? && Inv(r.0) && Extends(t, r.0)
  {
    LeasedJobKeeps(t[key], w, now, leaseFor);
    ReplaceKeeps(t, key, LeasedJob(t[key], w, now, leaseFor));
  }

  /** What a committed finish leaves behind. */
  lemma FinishResult(t: Table, c: Claim, outcome: Outcome, now: Time, retryAt: Option<Time>)
    requires Finish(t, c, outcome, now, retryAt).Ok?
    ensures c.key in t && t[c.key].row.attemptCount == c.attempt && c.attempt in t[c.key].attempts
    ensures var j, final, t' := t[c.key], FinalOutcome(t[c.key], outcome), Finish(t, c, outcome, now, retryAt).value;
            && t'.Keys == t.Keys && (forall k :: k in t && k != c.key ==> t'[k] == t[k])
            && t'[c.key].row.state == StateOf(final)
            && t'[c.key].row.orderId == j.row.orderId && t'[c.key].row.attemptCount == j.row.attemptCount
  {
  }

  /** A finish succeeds only for the leased job's current attempt, whatever claim is presented. */
  lemma FinishKeeps(t: Table, c: Claim, outcome: Outcome, now: Time, retryAt: Option<Time>)
    requires Inv(t) && Finish(t, c, outcome, now, retryAt).Ok?
    ensures var t' := Finish(t, c, outcome, now, retryAt).value; Inv(t') && Extends(t, t')
    ensures t[c.key].row.state == Leased
  {
    assert JobInv(t[c.key]);
    var final := FinalOutcome(t[c.key], outcome);
    FinishedJobKeeps(t[c.key], final, now, retryAt);
    ReplaceKeeps(t, c.key, FinishedJob(t[c.key], final, now, retryAt).value);
  }

  lemma EnqueueKeeps(t: Table, key: JobKey, orderId: OrderId, kind: Kind, maxAttempts: nat, at: Time)
    requires Inv(t)
    ensures var t' := Enqueue(t, key, orderId, kind, maxAttempts, at).0; Inv(t') && Extends(t, t')
  {
    ExtendsRefl(t);
    var r := Enqueue(t, key, orderId, kind, maxAttempts, at);
    if r.1 { assert JobInv(r.0[key]); }
  }

  lemma ClaimAnyKeeps(t: Table, key: JobKey, w: Worker, now: Time, leaseFor: Time)
    requires Inv(t)
    ensures var t' := ClaimAny(t, key, w, now, leaseFor).0; Inv(t') && Extends(t, t')
  {
    if key in t && Claimable(t[key], now) { LeaseKeeps(t, key, w, now, leaseFor); } else { ExtendsRefl(t); }
  }

  /** A specific claim either grants the lease of an open job with attempts left, or changes nothing. */
  lemma ClaimSpecificCases(t: Table, key: JobKey, generation: int, w: Worker, now: Time, leaseFor: Time)
    ensures var r := ClaimSpecific(t, key, generation, w, now, leaseFor);
            || (r.0 == t && !r.1.Granted?)
            || (&& key in t && generation == t[key].row.generation && t[key].row.state in {Available, Retry, Leased}
                && t[key].row.attemptCount < t[key].row.maxAttempts && r == Lease(t, key, w, now, leaseFor))
  {
  }

  lemma ClaimSpecificKeeps(t: Table, key: JobKey, generation: int, w: Worker, now: Time, leaseFor: Time)
    requires Inv(t)
    ensures var t' := ClaimSpecific(t, key, generation, w, now, leaseFor).0; Inv(t') && Extends(t, t')
  {
    ClaimSpecificCases(t, key, generation, w, now, leaseFor);
    if ClaimSpecific(t, key, generation, w, now, leaseFor).1.Granted? { LeaseKeeps(t, key, w, now, leaseFor); }
    else { ExtendsRefl(t); }
  }

  lemma HeartbeatKeeps(t: Table, key: JobKey, w: Worker, attempt: nat, until: Time)
    requires Inv(t)
    ensures var t' := Heartbeat(t, key, w, attempt, until).0; Inv(t') && Extends(t, t')
  {
    ExtendsRefl(t);
    if Heartbeat(t, key, w, attempt, until).1 {
      assert JobInv(t[key]);
      assert JobInv(ExtendedJob(t[key], until));
      ReplaceKeeps(t, key, ExtendedJob(t[key], until));
    }
  }

  lemma ReplayKeeps(t: Table, key: JobKey, now: Time)
    requires Inv(t) && Replay(t, key, now).Ok?
    ensures var t' := Replay(t, key, now).value; Inv(t') && Extends(t, t')
  {
    ReplayedJobKeeps(t[key], now);
    ReplaceKeeps(t, key, ReplayedJob(t[key], now).value);
  }

  lemma RecoverKeeps(t: Table, key: JobKey, now: Time, grace: Time)
    requires Inv(t)
    ensures Inv(Recover(t, key, now, grace)) && Extends(t, Recover(t, key, now, grace))
  {
    ExtendsRefl(t);
    if key in t && Stale(t[key], now, grace) && RecoverOne(t[key], now).Some? {
      RecoverOneKeeps(t[key], now);
      ReplaceKeeps(t, key, RecoverOne(t[key], now).value);
    }
  }

  lemma RecordDispatchKeeps(t: Table, key: JobKey, generation: nat, now: Time, accepted: bool)
    requires Inv(t)
    ensures var t' := RecordDispatch(t, key, generation, now, accepted); Inv(t') && Extends(t, t')
  {
    ExtendsRefl(t);
    if key in t && generation in t[key].dispatches && t[key].dispatches[generation].dispatchedAt.None? {
      DispatchedJobKeeps(t[key], generation, now, accepted);
      ReplaceKeeps(t, key, DispatchedJob(t[key], generation, now, accepted));
    }
  }

  /** Every transaction keeps the invariant and takes nothing back. */
  lemma NextKeeps(t: Table, s: Step)
    requires Inv(t)
    ensures Inv(Next(t, s)) && Extends(t, Next(t, s))
  {
    ExtendsRefl(t);
    match s
    case DoEnqueue(k, o, kind, m, at) => EnqueueKeeps(t, k, o, kind, m, at);
    case DoClaim(k, w, now, d) => ClaimAnyKeeps(t, k, w, now, d);
    case DoClaimSpecific(k, g, w, now, d) => ClaimSpecificKeeps(t, k, g, w, now, d);
    case DoHeartbeat(k, w, n, until) => HeartbeatKeeps(t, k, w, n, until);
    case DoFinish(c, o, now, r) => if Finish(t, c, o, now, r).Ok? { FinishKeeps(t, c, o, now, r); }
    case DoReplay(k, now) => if Replay(t, k, now).Ok? { ReplayKeeps(t, k, now); }
    case DoRecover(k, now, g) => RecoverKeeps(t, k, now, g);
    case DoDispatch(k, g, now, ok) => RecordDispatchKeeps(t, k, g, now, ok);
  }

  lemma ExtendsRefl(t: Table)
    ensures Extends(t, t)
  {
    forall k | k in t { JobExtendsRefl(t[k]); }
  }

  lemma ExtendsTrans(a: Table, b: Table, c: Table)
    requires Extends(a, b) && Extends(b, c)
    ensures Extends(a, c)
  {
    forall k | k in a ensures JobExtends(a[k], c[k]) {
      assert JobExtends(a[k], b[k]) && JobExtends(b[k], c[k]);
      JobExtendsTrans(a[k], b[k], c[k]);
    }
  }

  /** The job lease invariant holds in every run, and no run takes history back. */
  lemma {:induction false} RunKeeps(t: Table, steps: seq<Step>)
    requires Inv(t)
    ensures Inv(Run(t, steps)) && Extends(t, Run(t, steps))
    decreases |steps|
  {
    if steps == [] {
      ExtendsRefl(t);
    } else {
      var t' := Next(t, steps[0]);
      NextKeeps(t, steps[0]);
      RunKeeps(t', steps[1..]);
      ExtendsTrans(t, t', Run(t', steps[1..]));
    }
  }
}
