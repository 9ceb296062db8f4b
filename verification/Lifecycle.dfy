/**
 Orders, durable jobs and worker runs together.

 Any number of workers run jobs, and each worker is cut between its own transactions: after the claim,
 after the handler, after the heartbeat that confirms the lease, and between recording the order's
 manual review and finishing the job.  A run that is never scheduled again is a crashed worker.
 Stripe events, operators, task recovery and delivery webhooks act in between.
 */
module Lifecycle {
  import opened Prelude
  import opened Orders
  import opened Payments
  import J = Jobs
  import P = JobProperties

  /** Where one worker is with one claimed job. */
  datatype WorkerRun =
    | Working(claim: J.Claim)
    | Reviewing(claim: J.Claim, outcome: J.Outcome, code: string)
    | Finishing(claim: J.Claim, outcome: J.Outcome)
    | Ended

  /** `reviews` holds the terminal handler's state-event keys, per order. */
  datatype Sys = Sys(db: Db, runs: map<nat, WorkerRun>, reviews: set<(OrderId, string)>)

  datatype HandlerEnd = Succeeded | NeedsReview(code: string) | Retryable(code: string)

  datatype Step =
    | PlaceOrder(id: OrderId, amountMinor: int, currency: string, mode: PaymentMode)
    | OpenSession(id: OrderId, session: string)
    | StripeEvent(st: Settings, event: Event, hash: bytes, found: Option<OrderId>, canonical: Option<Canonical>,
      now: Time)
    | ClaimJob(run: nat, key: J.JobKey, w: J.Worker, now: Time, leaseFor: Time)
    | ClaimTask(run: nat, key: J.JobKey, generation: int, w: J.Worker, now: Time, leaseFor: Time)
    | KeepAlive(run: nat, until: Time)
    | UnknownKind(run: nat)
    | HandlerMoves(run: nat, target: Fulfillment)
    | HandlerEnqueues(run: nat, tag: string, kind: J.Kind, at: Time)
    | HandlerEnds(run: nat, end: HandlerEnd, until: Time)
    | RecordReview(run: nat)
    | FinishRun(run: nat, now: Time, retryAt: Time)
    | OperatorEnqueues(id: OrderId, tag: string, at: Time)
    | OperatorReplays(key: J.JobKey, now: Time)
    | RecoverTask(key: J.JobKey, now: Time, grace: Time)
    | TaskRecorded(key: J.JobKey, taskGeneration: nat, now: Time, accepted: bool)
    | NoticeDelivered(id: OrderId)

  // ---------------------------------------------------------------- transactions

  function WithJobs(s: Sys, jobs: J.Table): Sys { s.(db := s.db.(jobs := jobs)) }

  function WithOrder(s: Sys, id: OrderId, o: Order): Sys { s.(db := s.db.(orders := s.db.orders[id := o])) }

  function Claimed(s: Sys, run: nat, r: (J.Table, J.ClaimReply)): Sys {
    if r.1.Granted? && run !in s.runs then Sys(s.db.(jobs := r.0), s.runs[run := Working(r.1.claim)], s.reviews) else s
  }

  /** What the runner does with the handler's end, once the heartbeat confirmed the lease. */
  function Decide(c: J.Claim, end: HandlerEnd): WorkerRun {
    match end
    case Succeeded => Finishing(c, J.Completed)
    case NeedsReview(code) => Reviewing(c, J.ToManualReview, code)
    case Retryable(code) =>
      if c.attempt >= c.maxAttempts then Reviewing(c, J.ToDeadLetter, code) else Finishing(c, J.Retrying)
  }

  function EndHandler(s: Sys, run: nat, end: HandlerEnd, until: Time): Sys {
    if run !in s.runs || !s.runs[run].Working? then s
    else
      var c := s.runs[run].claim;
      var (jobs, held) := J.Heartbeat(s.db.jobs, c.key, c.owner, c.attempt, until);
      WithJobs(s, jobs).(runs := s.runs[run := if held then Decide(c, end) else Ended])
  }

  /** The terminal handler: one keyed transition of the order to manual review. */
  function Review(s: Sys, run: nat): Sys {
    if run !in s.runs || !s.runs[run].Reviewing? || s.runs[run].claim.orderId !in s.db.orders then s
    else
      var Reviewing(c, outcome, code) := s.runs[run];
      var next := s.(runs := s.runs[run := Finishing(c, outcome)]);
      if (c.orderId, code) in s.reviews then next
      else
        var o := s.db.orders[c.orderId];
        match TransitionFulfillment(o.payment, o.fulfillment, InManualReview)
        case None => s
        case Some(f) =>
          WithOrder(next, c.orderId, o.(fulfillment := f)).(reviews := s.reviews + {(c.orderId, code)})
  }

  function Finish(s: Sys, run: nat, now: Time, retryAt: Time): Sys {
    if run !in s.runs || !s.runs[run].Finishing? then s
    else
      var Finishing(c, outcome) := s.runs[run];
      var ended := s.(runs := s.runs[run := Ended]);
      match J.Finish(s.db.jobs, c, outcome, now, if outcome == J.Retrying then Some(retryAt) else None)
      case Ok(jobs) => WithJobs(ended, jobs)
      case Err(_) => ended
  }

  /** A transition made by a running handler; an illegal one raises and changes nothing. */
  function Move(s: Sys, run: nat, target: Fulfillment): Sys {
    if run !in s.runs || !s.runs[run].Working? || s.runs[run].claim.orderId !in s.db.orders then s
    else
      var o := s.db.orders[s.runs[run].claim.orderId];
      match TransitionFulfillment(o.payment, o.fulfillment, target)
      case None => s
      case Some(f) => WithOrder(s, s.runs[run].claim.orderId, o.(fulfillment := f))
  }

  function EnqueueFor(s: Sys, id: OrderId, tag: string, kind: J.Kind, at: Time): Sys {
    WithJobs(s, J.Enqueue(s.db.jobs, J.JobKey(tag, id), id, kind, 10, at).0)
  }

  function Next(s: Sys, step: Step): Sys {
    match step
    case PlaceOrder(id, amount, currency, mode) =>
      if id in s.db.orders then s
      else WithOrder(s, id, Order(CheckoutOpen, AwaitingPayment, None, None, amount, currency, mode))
    case OpenSession(id, session) =>
      if id !in s.db.orders then s else WithOrder(s, id, s.db.orders[id].(sessionId := Some(session)))
    case StripeEvent(st, e, hash, found, canonical, now) =>
      s.(db := Process(s.db, st, e, hash, found, canonical, now).0)
    case ClaimJob(run, key, w, now, d) => Claimed(s, run, J.ClaimAny(s.db.jobs, key, w, now, d))
    case ClaimTask(run, key, g, w, now, d) => Claimed(s, run, J.ClaimSpecific(s.db.jobs, key, g, w, now, d))
    case KeepAlive(run, until) =>
      if run !in s.runs || !s.runs[run].Working? then s
      else
        var c := s.runs[run].claim;
        WithJobs(s, J.Heartbeat(s.db.jobs, c.key, c.owner, c.attempt, until).0)
    case UnknownKind(run) =>
      if run !in s.runs || !s.runs[run].Working? || s.runs[run].claim.kind != J.OtherJob then s
      else s.(runs := s.runs[run := Reviewing(s.runs[run].claim, J.ToManualReview, "job_kind_unknown")])
    case HandlerMoves(run, target) => Move(s, run, target)
    case HandlerEnqueues(run, tag, kind, at) =>
      if run !in s.runs || !s.runs[run].Working? || tag == "stamp" || kind == J.StampJob then s
      else EnqueueFor(s, s.runs[run].claim.orderId, tag, kind, at)
    case HandlerEnds(run, end, until) => EndHandler(s, run, end, until)
    case RecordReview(run) => Review(s, run)
    case FinishRun(run, now, retryAt) => Finish(s, run, now, retryAt)
    case OperatorEnqueues(id, tag, at) =>
      if id !in s.db.orders || s.db.orders[id].fulfillment !in {CalendarPending, BitcoinVerified, Delivered}
         || tag == "stamp" then s
      else EnqueueFor(s, id, tag, J.UpgradeJob, at)
    case OperatorReplays(key, now) => WithJobs(s, J.Next(s.db.jobs, J.DoReplay(key, now)))
    case RecoverTask(key, now, grace) => WithJobs(s, J.Recover(s.db.jobs, key, now, grace))
    case TaskRecorded(key, g, now, ok) => WithJobs(s, J.RecordDispatch(s.db.jobs, key, g, now, ok))
    case NoticeDelivered(id) =>
      if id !in s.db.orders || s.db.orders[id].fulfillment != BitcoinVerified then s
      else WithOrder(s, id, s.db.orders[id].(fulfillment := Delivered))
  }

  function Run(s: Sys, steps: seq<Step>): Sys
    decreases |steps|
  {
    if steps == [] then s else Run(Next(s, steps[0]), steps[1..])
  }

  const Initial: Sys := Sys(Db(map[], map[], map[]), map[], {})

  // ---------------------------------------------------------------- invariants

  /** Paid before work: work, jobs and reviews exist only for orders that were charged, from the same instant on. */
  ghost predicate OrderInv(o: Order, id: OrderId, jobs: J.Table) {
    && (o.fulfillment != AwaitingPayment <==> StampKey(id) in jobs)
    && (o.fulfillment != AwaitingPayment ==> Charged(o.payment))
    && (o.payment == Paid ==> o.fulfillment != AwaitingPayment)
  }

  /** A job belongs to a charged order, a failed one to an order in manual review, and only one stamps. */
  ghost predicate JobOrderInv(k: J.JobKey, j: J.Job, orders: map<OrderId, Order>) {
    && j.row.orderId == k.orderId && k.orderId in orders
    && (j.row.kind == J.StampJob <==> k == StampKey(k.orderId))
    && orders[k.orderId].fulfillment != AwaitingPayment
    && (j.row.state in {J.ManualReview, J.DeadLetter} ==> orders[k.orderId].fulfillment == InManualReview)
  }

  /** The claim a run carries was issued for this job, under the job's attempt budget. */
  ghost predicate ClaimInv(c: J.Claim, jobs: J.Table) {
    && c.key in jobs && c.orderId == c.key.orderId
    && c.attempt <= jobs[c.key].row.attemptCount
    && (P.Holds(jobs, c) ==> c.maxAttempts == jobs[c.key].row.maxAttempts)
  }

  ghost predicate RunInv(r: WorkerRun, orders: map<OrderId, Order>, jobs: J.Table) {
    match r
    case Working(c) => ClaimInv(c, jobs)
    case Reviewing(c, outcome, _) => ClaimInv(c, jobs) && outcome in {J.ToManualReview, J.ToDeadLetter}
    case Finishing(c, outcome) =>
      && ClaimInv(c, jobs)
      && (outcome == J.Retrying ==> c.attempt < c.maxAttempts)
      && (outcome in {J.ToManualReview, J.ToDeadLetter} ==>
            c.orderId in orders && orders[c.orderId].fulfillment == InManualReview)
    case Ended => true
  }

  ghost predicate OrdersInv(orders: map<OrderId, Order>, jobs: J.Table) {
    forall id {:trigger OrderInv(orders[id], id, jobs)} :: id in orders ==> OrderInv(orders[id], id, jobs)
  }

  ghost predicate JobOrdersInv(orders: map<OrderId, Order>, jobs: J.Table) {
    forall k {:trigger JobOrderInv(k, jobs[k], orders)} :: k in jobs ==> JobOrderInv(k, jobs[k], orders)
  }

  ghost predicate RunsInv(runs: map<nat, WorkerRun>, orders: map<OrderId, Order>, jobs: J.Table) {
    forall r {:trigger RunInv(runs[r], orders, jobs)} :: r in runs ==> RunInv(runs[r], orders, jobs)
  }

  /** The terminal handler's event key is only ever recorded for an order that is in manual review. */
  ghost predicate ReviewsInv(reviews: set<(OrderId, string)>, orders: map<OrderId, Order>) {
    forall r :: r in reviews ==> r.0 in orders && orders[r.0].fulfillment == InManualReview
  }

  ghost predicate Inv(s: Sys) {
    && J.Inv(s.db.jobs)
    && OrdersInv(s.db.orders, s.db.jobs)
    && JobOrdersInv(s.db.orders, s.db.jobs)
    && RunsInv(s.runs, s.db.orders, s.db.jobs)
    && ReviewsInv(s.reviews, s.db.orders)
  }

  /** Orders only move along the two transition relations, and the direct write to `queued` is one of them. */
  ghost predicate OrderForward(o: Order, o': Order) {
    && (o'.payment == o.payment || o'.payment in PaymentTargets(o.payment))
    && TransitionFulfillment(o'.payment, o.fulfillment, o'.fulfillment) == Some(o'.fulfillment)
  }

  ghost predicate Forward(orders: map<OrderId, Order>, orders': map<OrderId, Order>) {
    forall id :: id in orders ==> id in orders' && OrderForward(orders[id], orders'[id])
  }
}
