/**
 Durable jobs: leases, attempts and generation-numbered dispatch rows.

 A job is identified by its unique `job_key`.  Its attempt rows and dispatch rows carry foreign keys
 to it and are unique per (job, attempt number) and (job, generation), so they are kept with it as
 maps; an insert under a used number is the database's IntegrityError and changes nothing.
 Every function here is one committed transaction.
 */
module Jobs {
  import opened Prelude

  type OrderId = nat

  /** A rendered key such as `upgrade-poll:<order>:<seconds>`, kept as its order and the rest of its text. */
  datatype JobKey = JobKey(tag: string, orderId: OrderId)

  type Worker = string

  datatype JobState = Available | Leased | Retry | Complete | ManualReview | DeadLetter
  datatype Outcome = Completed | Retrying | ToManualReview | ToDeadLetter
  datatype Kind = StampJob | UpgradeJob | DeliveryJob | ConfirmationJob | OtherJob

  datatype Row = Row(
    orderId: OrderId, kind: Kind, state: JobState, generation: nat, attemptCount: nat, maxAttempts: nat,
    availableAt: Time, leaseOwner: Option<Worker>, leaseUntil: Option<Time>)

  datatype Attempt = Attempt(worker: Worker, startedAt: Time, finishedAt: Option<Time>, outcome: Option<Outcome>)

  /** A dispatch row is `dispatched` exactly when `dispatchedAt` is set. */
  datatype Dispatch = Dispatch(scheduleAt: Time, dispatchedAt: Option<Time>, tries: nat)

  datatype Job = Job(row: Row, attempts: map<nat, Attempt>, dispatches: map<nat, Dispatch>)

  type Table = map<JobKey, Job>

  /** What a worker holds after a successful claim. */
  datatype Claim = Claim(key: JobKey, kind: Kind, orderId: OrderId, maxAttempts: nat, attempt: nat, owner: Worker)

  const MAX_GENERATION: nat := 999_999_999
  const MIN_STALE_GRACE: Time := 7_200_000_000
  const MAX_STALE_GRACE: Time := 2_592_000_000_000

  predicate Terminal(s: JobState) { s in {Complete, ManualReview, DeadLetter} }

  function StateOf(o: Outcome): JobState {
    match o
    case Completed => Complete
    case Retrying => Retry
    case ToManualReview => ManualReview
    case ToDeadLetter => DeadLetter
  }

  // ---------------------------------------------------------------- transactions

  /** `add_task_dispatch`: refused by the task-name pattern or by the unique constraint. */
  function AddDispatch(j: Job, scheduleAt: Time): Option<Job> {
    if j.row.generation < 1 || j.row.generation > MAX_GENERATION || j.row.generation in j.dispatches then None
    else Some(j.(dispatches := j.dispatches[j.row.generation := Dispatch(scheduleAt, None, 0)]))
  }

  function NextGeneration(j: Job, scheduleAt: Time): Option<Job> {
    AddDispatch(j.(row := j.row.(generation := j.row.generation + 1)), scheduleAt)
  }

  /** `enqueue_once`; the flag is its `created`. */
  function Enqueue(t: Table, key: JobKey, orderId: OrderId, kind: Kind, maxAttempts: nat, at: Time): (Table, bool) {
    if maxAttempts < 1 || key in t then (t, false)
    else
      var inserted := Job(Row(orderId, kind, Available, 1, 0, maxAttempts, at, None, None), map[], map[]);
      match AddDispatch(inserted, at)
      case Some(j) => (t[key := j], true)
      case None => (t, false)
  }

  /** The `claim_query` conditions. */
  predicate Claimable(j: Job, now: Time) {
    && j.row.state in {Available, Retry, Leased}
    && j.row.availableAt <= now
    && (j.row.leaseUntil.None? || j.row.leaseUntil.value < now)
    && j.row.attemptCount < j.row.maxAttempts
  }

  datatype ClaimReply = Granted(claim: Claim) | Nothing | TaskRetry(code: string) | Refused(code: string)

  /** `_lease`: a new attempt row under the next number, owned by the worker. */
  function LeasedJob(j: Job, w: Worker, now: Time, leaseFor: Time): Job {
    var n := j.row.attemptCount + 1;
    Job(j.row.(attemptCount := n, state := Leased, leaseOwner := Some(w), leaseUntil := Some(now + leaseFor)),
        j.attempts[n := Attempt(w, now, None, None)], j.dispatches)
  }

  function ClaimOf(key: JobKey, j: Job, w: Worker): Claim {
    Claim(key, j.row.kind, j.row.orderId, j.row.maxAttempts, j.row.attemptCount, w)
  }

  function Lease(t: Table, key: JobKey, w: Worker, now: Time, leaseFor: Time): (Table, ClaimReply)
    requires key in t
  {
    if t[key].row.attemptCount + 1 in t[key].attempts then (t, Refused("integrity_error"))
    else
      var j := LeasedJob(t[key], w, now, leaseFor);
      (t[key := j], Granted(ClaimOf(key, j, w)))
  }

  /** `claim` of one row the query returned; `SKIP LOCKED` lets it be any claimable row. */
  function ClaimAny(t: Table, key: JobKey, w: Worker, now: Time, leaseFor: Time): (Table, ClaimReply) {
    if key in t && Claimable(t[key], now) then Lease(t, key, w, now, leaseFor) else (t, Nothing)
  }

  function ClaimSpecific(t: Table, key: JobKey, generation: int, w: Worker, now: Time, leaseFor: Time)
    : (Table, ClaimReply)
  {
    if generation < 1 then (t, Refused("task_generation_invalid"))
    else if key !in t then (t, TaskRetry("specific_job_not_committed"))
    else if generation !in t[key].dispatches then (t, TaskRetry("specific_dispatch_not_committed"))
    else
      var row := t[key].row;
      if row.generation != generation then (t, Nothing)
      else if row.state !in {Available, Retry, Leased} then (t, Nothing)
      else if row.availableAt > now then (t, TaskRetry("specific_job_not_due"))
      else if row.leaseUntil.Some? && row.leaseUntil.value >= now then (t, TaskRetry("specific_job_lease_active"))
      else if row.attemptCount >= row.maxAttempts then (t, Nothing)
      else Lease(t, key, w, now, leaseFor)
  }

  function Heartbeat(t: Table, key: JobKey, w: Worker, attempt: nat, until: Time): (Table, bool) {
    if key !in t || t[key].row.leaseOwner != Some(w) || t[key].row.attemptCount != attempt || t[key].row.state != Leased
    then (t, false)
    else (t[key := ExtendedJob(t[key], until)], true)
  }

  function ExtendedJob(j: Job, until: Time): Job { j.(row := j.row.(leaseUntil := Some(until))) }

  datatype FinishError = LeaseLost | AttemptMissing | RetryTimeMissing | DispatchRefused

  /** The store's own fallback: a retry with no attempt left becomes a dead letter. */
  function FinalOutcome(j: Job, outcome: Outcome): Outcome {
    if outcome == Retrying && j.row.attemptCount >= j.row.maxAttempts then ToDeadLetter else outcome
  }

  function Finish(t: Table, c: Claim, outcome: Outcome, now: Time, retryAt: Option<Time>): Result<Table, FinishError> {
    if c.key !in t || t[c.key].row.leaseOwner != Some(c.owner) || t[c.key].row.attemptCount != c.attempt
    then Err(LeaseLost)
    else if t[c.key].row.attemptCount !in t[c.key].attempts then Err(AttemptMissing)
    else if FinalOutcome(t[c.key], outcome) == Retrying && retryAt.None? then Err(RetryTimeMissing)
    else
      match FinishedJob(t[c.key], FinalOutcome(t[c.key], outcome), now, retryAt)
      case Some(j) => Ok(t[c.key := j])
      case None => Err(DispatchRefused)
  }

  /** The writes of `finish`; a retry opens the next generation and its dispatch row. */
  function FinishedJob(j: Job, final: Outcome, now: Time, retryAt: Option<Time>): Option<Job>
    requires j.row.attemptCount in j.attempts
    requires final == Retrying ==> retryAt.Some?
  {
    var n := j.row.attemptCount;
    var row := j.row.(state := StateOf(final), availableAt := retryAt.GetOr(j.row.availableAt),
                      leaseOwner := None, leaseUntil := None);
    var attempts := j.attempts[n := j.attempts[n].(finishedAt := Some(now), outcome := Some(final))];
    if final != Retrying then Some(Job(row, attempts, j.dispatches))
    else NextGeneration(Job(row, attempts, j.dispatches), retryAt.value)
  }

  datatype ReplayError = JobNotFound | NotReplayable | TerminalRecovery | ReplayDispatchRefused

  /** The operator's `replay`; terminal jobs are only inspected, never changed. */
  function Replay(t: Table, key: JobKey, now: Time): Result<Table, ReplayError> {
    if key !in t then Err(JobNotFound)
    else if t[key].row.state in {ManualReview, DeadLetter} then Err(TerminalRecovery)
    else if t[key].row.state != Retry then Err(NotReplayable)
    else
      match ReplayedJob(t[key], now)
      case Some(j) => Ok(t[key := j])
      case None => Err(ReplayDispatchRefused)
  }

  function ReplayedJob(j: Job, now: Time): Option<Job> {
    var row := j.row.(state := Available, availableAt := now, leaseOwner := None, leaseUntil := None,
                      maxAttempts := Max(j.row.maxAttempts, j.row.attemptCount + 10));
    NextGeneration(j.(row := row), now)
  }

  /** The selection of `recover_stale_dispatched`. */
  predicate Stale(j: Job, now: Time, grace: Time) {
    && j.row.generation in j.dispatches
    && (var d := j.dispatches[j.row.generation];
        d.dispatchedAt.Some? && d.scheduleAt <= now - grace && d.dispatchedAt.value <= now - grace)
    && j.row.state in {Available, Retry, Leased}
    && j.row.availableAt <= now - grace
    && j.row.attemptCount < j.row.maxAttempts
    && (j.row.leaseUntil.None? || j.row.leaseUntil.value < now)
  }

  /** The recovery of one selected job: an expired lease is closed, then a new generation is opened. */
  function RecoverOne(j: Job, now: Time): Option<Job> {
    NextGeneration(Released(j, now), now)
  }

  function Released(j: Job, now: Time): Job {
    var n := j.row.attemptCount;
    if j.row.leaseOwner.None? then j
    else
      Job(j.row.(state := Available, leaseOwner := None, leaseUntil := None),
          if n in j.attempts && j.attempts[n].finishedAt.None?
          then j.attempts[n := j.attempts[n].(finishedAt := Some(now), outcome := Some(Retrying))]
          else j.attempts,
          j.dispatches)
  }

  function Recover(t: Table, key: JobKey, now: Time, grace: Time): Table {
    if key in t && Stale(t[key], now, grace) && RecoverOne(t[key], now).Some?
    then t[key := RecoverOne(t[key], now).value] else t
  }

  /** The second transaction of `dispatch`, after the task service accepted or refused the task. */
  function RecordDispatch(t: Table, key: JobKey, generation: nat, now: Time, accepted: bool): Table {
    if key !in t || generation !in t[key].dispatches || t[key].dispatches[generation].dispatchedAt.Some? then t
    else t[key := DispatchedJob(t[key], generation, now, accepted)]
  }

  function DispatchedJob(j: Job, generation: nat, now: Time, accepted: bool): Job
    requires generation in j.dispatches
  {
    var d := j.dispatches[generation];
    var d' := d.(tries := d.tries + 1, dispatchedAt := if accepted then Some(now) else None);
    j.(dispatches := j.dispatches[generation := d'])
  }

  // ---------------------------------------------------------------- runs

  datatype Step =
    | DoEnqueue(key: JobKey, orderId: OrderId, kind: Kind, maxAttempts: nat, at: Time)
    | DoClaim(key: JobKey, w: Worker, now: Time, leaseFor: Time)
    | DoClaimSpecific(key: JobKey, generation: int, w: Worker, now: Time, leaseFor: Time)
    | DoHeartbeat(key: JobKey, w: Worker, attempt: nat, until: Time)
    | DoFinish(claim: Claim, outcome: Outcome, now: Time, retryAt: Option<Time>)
    | DoReplay(key: JobKey, now: Time)
    | DoRecover(key: JobKey, now: Time, grace: Time)
    | DoDispatch(key: JobKey, taskGeneration: nat, now: Time, accepted: bool)

  function Next(t: Table, s: Step): Table {
    match s
    case DoEnqueue(k, o, kind, m, at) => Enqueue(t, k, o, kind, m, at).0
    case DoClaim(k, w, now, d) => ClaimAny(t, k, w, now, d).0
    case DoClaimSpecific(k, g, w, now, d) => ClaimSpecific(t, k, g, w, now, d).0
    case DoHeartbeat(k, w, n, until) => Heartbeat(t, k, w, n, until).0
    case DoFinish(c, o, now, r) => (match Finish(t, c, o, now, r) case Ok(t') => t' case Err(_) => t)
    case DoReplay(k, now) => (match Replay(t, k, now) case Ok(t') => t' case Err(_) => t)
    case DoRecover(k, now, g) => Recover(t, k, now, g)
    case DoDispatch(k, g, now, ok) => RecordDispatch(t, k, g, now, ok)
  }

  function Run(t: Table, steps: seq<Step>): Table
    decreases |steps|
  {
    if steps == [] then t else Run(Next(t, steps[0]), steps[1..])
  }

  // ---------------------------------------------------------------- invariant

  /** Everything the rows of one job promise each other. */
  ghost predicate JobInv(j: Job) {
    && 1 <= j.row.generation <= MAX_GENERATION
    && j.row.attemptCount <= j.row.maxAttempts
    && 1 <= j.row.maxAttempts
    && (j.row.state in {Available, Retry} ==> j.row.attemptCount < j.row.maxAttempts)
    && (j.row.state == Leased <==> j.row.leaseOwner.Some?)
    && (j.row.leaseOwner.Some? <==> j.row.leaseUntil.Some?)
    && (forall n :: n in j.attempts <==> 1 <= n <= j.row.attemptCount)
    && (forall g :: g in j.dispatches <==> 1 <= g <= j.row.generation)
    && (forall n :: n in j.attempts ==> (j.attempts[n].finishedAt.Some? <==> j.attempts[n].outcome.Some?))
    && CurrentAttemptInv(j)
  }

  /** The newest attempt is open exactly while the lease is held, and then belongs to the holder. */
  ghost predicate CurrentAttemptInv(j: Job) {
    && (j.row.state == Leased ==> j.row.attemptCount in j.attempts)
    && (j.row.state in {Retry, Complete, ManualReview, DeadLetter} ==> j.row.attemptCount in j.attempts)
    && (j.row.attemptCount in j.attempts ==>
          var a := j.attempts[j.row.attemptCount];
          && (j.row.state == Leased <==> a.finishedAt.None?)
          && (j.row.state == Leased ==> Some(a.worker) == j.row.leaseOwner)
          && (j.row.state in {Retry, Complete, ManualReview, DeadLetter} ==>
                a.outcome.Some? && StateOf(a.outcome.value) == j.row.state))
  }

  ghost predicate Inv(t: Table) {
    forall k {:trigger JobInv(t[k])} :: k in t ==> JobInv(t[k])
  }

  /** What no transaction ever takes back. */
  ghost predicate JobExtends(j: Job, j': Job) {
    && j.row.orderId == j'.row.orderId && j.row.kind == j'.row.kind
    && j.row.attemptCount <= j'.row.attemptCount
    && j.row.maxAttempts <= j'.row.maxAttempts
    && j.row.generation <= j'.row.generation
    && (Terminal(j.row.state) ==> j'.row == j.row)
    && (forall n :: n in j.attempts ==> n in j'.attempts && AttemptExtends(j.attempts[n], j'.attempts[n]))
    && (forall g :: g in j.dispatches ==> g in j'.dispatches && DispatchExtends(j.dispatches[g], j'.dispatches[g]))
  }

  /** An attempt row is written when it starts and at most once more, when it finishes. */
  ghost predicate AttemptExtends(a: Attempt, a': Attempt) {
    a.worker == a'.worker && a.startedAt == a'.startedAt && (a.finishedAt.Some? ==> a' == a)
  }

  ghost predicate DispatchExtends(d: Dispatch, d': Dispatch) {
    d.scheduleAt == d'.scheduleAt && d.tries <= d'.tries && (d.dispatchedAt.Some? ==> d' == d)
  }

  ghost predicate Extends(t: Table, t': Table) {
    t.Keys <= t'.Keys && forall k {:trigger JobExtends(t[k], t'[k])} :: k in t ==> JobExtends(t[k], t'[k])
  }
}
