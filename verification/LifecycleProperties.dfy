/** Orders and jobs agree over every run: paid before work, failed jobs reviewed, payment bounded. */
module LifecycleProperties {
  import opened Prelude
  import opened Orders
  import opened Payments
  import opened Lifecycle
  import J = Jobs
  import JI = JobInvariant
  import P = JobProperties

  // ---------------------------------------------------------------- steps that touch jobs only

  /** One job's row after a transaction that neither creates nor finishes jobs. */
  ghost predicate RowAgrees(r: J.Row, r': J.Row) {
    && r'.orderId == r.orderId && r'.kind == r.kind
    && r.attemptCount <= r'.attemptCount
    && (r'.state == J.Leased && r'.attemptCount == r.attemptCount ==>
          r.state == J.Leased && r'.leaseOwner == r.leaseOwner && r'.maxAttempts == r.maxAttempts)
    && (J.Terminal(r'.state) ==> r.state == r'.state)
  }

  ghost predicate JobsAgree(jobs: J.Table, jobs': J.Table) {
    && jobs'.Keys == jobs.Keys
    && (forall k :: k in jobs ==> RowAgrees(jobs[k].row, jobs'[k].row))
  }

  lemma JobStepAgrees(jobs: J.Table, st: J.Step)
    requires J.Inv(jobs) && !st.DoFinish? && !st.DoEnqueue?
    ensures J.Inv(J.Next(jobs, st)) && JobsAgree(jobs, J.Next(jobs, st))
  {
    JI.NextKeeps(jobs, st);
    var jobs' := J.Next(jobs, st);
    forall k | k in jobs ensures k in jobs' && RowAgrees(jobs[k].row, jobs'[k].row) { P.RowSteps(jobs, st, k); }
    JobKeysKept(jobs, st);
  }

  lemma JobKeysKept(jobs: J.Table, st: J.Step)
    requires !st.DoEnqueue?
    ensures J.Next(jobs, st).Keys == jobs.Keys
  {
  }

  lemma ClaimAgrees(c: J.Claim, jobs: J.Table, jobs': J.Table)
    requires ClaimInv(c, jobs) && JobsAgree(jobs, jobs')
    ensures ClaimInv(c, jobs')
  {
    assert RowAgrees(jobs[c.key].row, jobs'[c.key].row);
  }

  lemma RunsAgree(runs: map<nat, WorkerRun>, orders: map<OrderId, Order>, jobs: J.Table, jobs': J.Table)
    requires RunsInv(runs, orders, jobs) && JobsAgree(jobs, jobs')
    ensures RunsInv(runs, orders, jobs')
  {
    forall r | r in runs ensures RunInv(runs[r], orders, jobs') {
      assert RunInv(runs[r], orders, jobs);
      if !runs[r].Ended? { ClaimAgrees(runs[r].claim, jobs, jobs'); }
    }
  }

  lemma JobOrdersAgree(orders: map<OrderId, Order>, jobs: J.Table, jobs': J.Table)
    requires OrdersInv(orders, jobs) && JobOrdersInv(orders, jobs) && JobsAgree(jobs, jobs')
    ensures OrdersInv(orders, jobs') && JobOrdersInv(orders, jobs')
  {
    forall k | k in jobs' ensures JobOrderInv(k, jobs'[k], orders) {
      assert JobOrderInv(k, jobs[k], orders);
      assert RowAgrees(jobs[k].row, jobs'[k].row);
    }
    forall id | id in orders ensures OrderInv(orders[id], id, jobs') {
      assert OrderInv(orders[id], id, jobs);
    }
  }

  lemma ForwardRefl(orders: map<OrderId, Order>)
    ensures Forward(orders, orders)
  {
  }

  /** Claims, heartbeats, replays, recoveries and dispatch marks touch no order and fail no job. */
  lemma JobsOnlyKeeps(s: Sys, st: J.Step)
    requires Inv(s) && !st.DoFinish? && !st.DoEnqueue?
    ensures var s' := WithJobs(s, J.Next(s.db.jobs, st)); Inv(s') && Forward(s.db.orders, s'.db.orders)
  {
    var jobs' := J.Next(s.db.jobs, st);
    JobStepAgrees(s.db.jobs, st);
    JobOrdersAgree(s.db.orders, s.db.jobs, jobs');
    RunsAgree(s.runs, s.db.orders, s.db.jobs, jobs');
    ForwardRefl(s.db.orders);
  }

  // ---------------------------------------------------------------- steps that touch one order

  /** The order's row changes without going back: manual review stays, and work neither starts nor vanishes. */
  ghost predicate OrderKeeps(orders: map<OrderId, Order>, orders': map<OrderId, Order>) {
    forall i :: i in orders ==>
      && i in orders'
      && (orders[i].fulfillment == InManualReview ==> orders'[i].fulfillment == InManualReview)
      && (orders[i].fulfillment != AwaitingPayment ==> orders'[i].fulfillment != AwaitingPayment)
  }

  lemma RunsSurviveOrders(runs: map<nat, WorkerRun>, orders: map<OrderId, Order>, orders': map<OrderId, Order>,
                          jobs: J.Table)
    requires RunsInv(runs, orders, jobs) && OrderKeeps(orders, orders')
    ensures RunsInv(runs, orders', jobs)
  {
    forall r | r in runs ensures RunInv(runs[r], orders', jobs) { assert RunInv(runs[r], orders, jobs); }
  }

  lemma JobsSurviveOrders(orders: map<OrderId, Order>, orders': map<OrderId, Order>, jobs: J.Table)
    requires JobOrdersInv(orders, jobs) && OrderKeeps(orders, orders')
    ensures JobOrdersInv(orders', jobs)
  {
    forall k | k in jobs ensures JobOrderInv(k, jobs[k], orders') { assert JobOrderInv(k, jobs[k], orders); }
  }

  lemma ReviewsSurviveOrders(reviews: set<(OrderId, string)>, orders: map<OrderId, Order>, orders': map<OrderId, Order>)
    requires ReviewsInv(reviews, orders) && OrderKeeps(orders, orders')
    ensures ReviewsInv(reviews, orders')
  {
  }

  lemma OneOrderChanges(orders: map<OrderId, Order>, id: OrderId, o': Order, jobs: J.Table)
    requires id in orders && OrderForward(orders[id], o')
    requires orders[id].fulfillment != AwaitingPayment ==> o'.fulfillment != AwaitingPayment
    ensures Forward(orders, orders[id := o']) && OrderKeeps(orders, orders[id := o'])
  {
  }

  /** An order that already has jobs moves forward and never out of manual review. */
  lemma OrderMoveKeeps(s: Sys, id: OrderId, o': Order)
    requires Inv(s) && id in s.db.orders
    requires var o := s.db.orders[id];
             && OrderForward(o, o') && o'.payment == o.payment
             && (o.fulfillment == AwaitingPayment <==> o'.fulfillment == AwaitingPayment)
    ensures var s' := WithOrder(s, id, o'); Inv(s') && Forward(s.db.orders, s'.db.orders)
  {
    var orders, orders', jobs := s.db.orders, s.db.orders[id := o'], s.db.jobs;
    assert OrderInv(orders[id], id, jobs);
    OneOrderChanges(orders, id, o', jobs);
    OrdersSurvive(orders, id, o', jobs);
    JobsSurviveOrders(orders, orders', jobs);
    RunsSurviveOrders(s.runs, orders, orders', jobs);
    ReviewsSurviveOrders(s.reviews, orders, orders');
  }

  lemma OrdersSurvive(orders: map<OrderId, Order>, id: OrderId, o': Order, jobs: J.Table)
    requires OrdersInv(orders, jobs) && id in orders && OrderInv(o', id, jobs)
    ensures OrdersInv(orders[id := o'], jobs)
  {
    var orders' := orders[id := o'];
    forall i | i in orders' ensures OrderInv(orders'[i], i, jobs) {
      if i != id { assert OrderInv(orders[i], i, jobs); }
    }
  }

  /** The order of a claimed job has left `awaiting_payment`. */
  lemma ClaimedOrderStarted(s: Sys, c: J.Claim)
    requires Inv(s) && ClaimInv(c, s.db.jobs)
    ensures c.orderId in s.db.orders && s.db.orders[c.orderId].fulfillment != AwaitingPayment
  {
    assert JobOrderInv(c.key, s.db.jobs[c.key], s.db.orders);
  }

  lemma MoveKeeps(s: Sys, run: nat, target: Fulfillment)
    requires Inv(s)
    ensures Inv(Move(s, run, target)) && Forward(s.db.orders, Move(s, run, target).db.orders)
  {
    ForwardRefl(s.db.orders);
    if run in s.runs && s.runs[run].Working? {
      var c := s.runs[run].claim;
      assert RunInv(s.runs[run], s.db.orders, s.db.jobs);
      ClaimedOrderStarted(s, c);
      var o := s.db.orders[c.orderId];
      var moved := TransitionFulfillment(o.payment, o.fulfillment, target);
      if moved.Some? {
        MoveFacts(o.payment, o.fulfillment, target);
        OrderMoveKeeps(s, c.orderId, o.(fulfillment := target));
        assert Move(s, run, target) == WithOrder(s, c.orderId, o.(fulfillment := target));
      } else {
        assert Move(s, run, target) == s;
      }
    } else {
      assert Move(s, run, target) == s;
    }
  }

  lemma MoveFacts(p: Payment, f: Fulfillment, target: Fulfillment)
    requires f != AwaitingPayment && TransitionFulfillment(p, f, target).Some?
    ensures TransitionFulfillment(p, f, target) == Some(target) && target != AwaitingPayment
  {
  }

  lemma RunsOnlyKeeps(s: Sys, run: nat, r: WorkerRun)
    requires Inv(s) && RunInv(r, s.db.orders, s.db.jobs)
    ensures Inv(s.(runs := s.runs[run := r]))
  {
    var runs := s.runs[run := r];
    forall i | i in runs ensures RunInv(runs[i], s.db.orders, s.db.jobs) {
      if i != run { assert RunInv(s.runs[i], s.db.orders, s.db.jobs); }
    }
  }

  lemma ReviewKeeps(s: Sys, run: nat)
    requires Inv(s)
    ensures var s' := Review(s, run); Inv(s') && Forward(s.db.orders, s'.db.orders)
  {
    ForwardRefl(s.db.orders);
    if run in s.runs && s.runs[run].Reviewing? {
      var Reviewing(c, outcome, code) := s.runs[run];
      assert RunInv(s.runs[run], s.db.orders, s.db.jobs);
      ClaimedOrderStarted(s, c);
      var done := Finishing(c, outcome);
      if (c.orderId, code) in s.reviews {
        assert s.db.orders[c.orderId].fulfillment == InManualReview;
        RunsOnlyKeeps(s, run, done);
        assert Review(s, run) == s.(runs := s.runs[run := done]);
      } else {
        ReviewTransitionKeeps(s, run, c, code, done);
        assert Review(s, run) == Reviewed(s, c.orderId, code).(runs := s.runs[run := done]);
      }
    } else {
      assert Review(s, run) == s;
    }
  }

  /** The order after the terminal handler's first visit under this code. */
  function Reviewed(s: Sys, id: OrderId, code: string): Sys
    requires id in s.db.orders
  {
    WithOrder(s, id, s.db.orders[id].(fulfillment := InManualReview)).(reviews := s.reviews + {(id, code)})
  }

  lemma ReviewTransitionKeeps(s: Sys, run: nat, c: J.Claim, code: string, done: WorkerRun)
    requires Inv(s) && ClaimInv(c, s.db.jobs) && done.Finishing? && done.claim == c && done.outcome != J.Retrying
    requires c.orderId in s.db.orders && s.db.orders[c.orderId].fulfillment != AwaitingPayment
    ensures var s' := Reviewed(s, c.orderId, code).(runs := s.runs[run := done]);
            Inv(s') && Forward(s.db.orders, s'.db.orders)
    ensures var o := s.db.orders[c.orderId];
            TransitionFulfillment(o.payment, o.fulfillment, InManualReview) == Some(InManualReview)
  {
    var o' := s.db.orders[c.orderId].(fulfillment := InManualReview);
    OrderMoveKeeps(s, c.orderId, o');
    var s1 := WithOrder(s, c.orderId, o').(reviews := s.reviews + {(c.orderId, code)});
    RunsOnlyKeeps(s1, run, done);
  }

  // ---------------------------------------------------------------- enqueue, claim, end and finish

  lemma EnqueueForKeeps(s: Sys, id: OrderId, tag: string, kind: J.Kind, at: Time)
    requires Inv(s) && id in s.db.orders && s.db.orders[id].fulfillment != AwaitingPayment
    requires tag != "stamp" && kind != J.StampJob
    ensures Inv(EnqueueFor(s, id, tag, kind, at)) && Forward(s.db.orders, EnqueueFor(s, id, tag, kind, at).db.orders)
  {
    ForwardRefl(s.db.orders);
    var key := J.JobKey(tag, id);
    var jobs, jobs' := s.db.jobs, EnqueueFor(s, id, tag, kind, at).db.jobs;
    JI.EnqueueKeeps(jobs, key, id, kind, 10, at);
    EnqueueAdds(jobs, key, id, kind, at);
    var orders := s.db.orders;
    assert OrderInv(orders[id], id, jobs);
    forall i | i in orders ensures OrderInv(orders[i], i, jobs') { assert OrderInv(orders[i], i, jobs); }
    forall k | k in jobs' ensures JobOrderInv(k, jobs'[k], orders) {
      if k in jobs { assert JobOrderInv(k, jobs[k], orders); }
    }
    RunsSurviveInsert(s.runs, orders, jobs, jobs');
  }

  lemma EnqueueAdds(jobs: J.Table, key: J.JobKey, id: OrderId, kind: J.Kind, at: Time)
    ensures var jobs' := J.Enqueue(jobs, key, id, kind, 10, at).0;
            && jobs'.Keys == jobs.Keys + {key}
            && (forall k :: k in jobs ==> k in jobs' && jobs'[k] == jobs[k])
            && (key !in jobs ==>
                  jobs'[key].row.orderId == id && jobs'[key].row.kind == kind && jobs'[key].row.state == J.Available)
  {
  }

  lemma RunsSurviveInsert(runs: map<nat, WorkerRun>, orders: map<OrderId, Order>, jobs: J.Table, jobs': J.Table)
    requires RunsInv(runs, orders, jobs)
    requires forall k :: k in jobs ==> k in jobs' && jobs'[k] == jobs[k]
    ensures RunsInv(runs, orders, jobs')
  {
    forall r | r in runs ensures RunInv(runs[r], orders, jobs') { assert RunInv(runs[r], orders, jobs); }
  }

  lemma ClaimedKeeps(s: Sys, run: nat, st: J.Step, r: (J.Table, J.ClaimReply))
    requires Inv(s) && (st.DoClaim? || st.DoClaimSpecific?)
    requires r == if st.DoClaim? then J.ClaimAny(s.db.jobs, st.key, st.w, st.now, st.leaseFor)
                  else J.ClaimSpecific(s.db.jobs, st.key, st.generation, st.w, st.now, st.leaseFor)
    ensures var s' := Claimed(s, run, r); Inv(s') && Forward(s.db.orders, s'.db.orders)
  {
    ForwardRefl(s.db.orders);
    if r.1.Granted? && run !in s.runs {
      JobsOnlyKeeps(s, st);
      GrantedClaimInv(s.db.jobs, st, r, s.db.orders);
      RunsOnlyKeeps(WithJobs(s, r.0), run, Working(r.1.claim));
      assert Claimed(s, run, r) == WithJobs(s, r.0).(runs := s.runs[run := Working(r.1.claim)]);
    } else {
      assert Claimed(s, run, r) == s;
    }
  }

  lemma GrantedClaimInv(jobs: J.Table, st: J.Step, r: (J.Table, J.ClaimReply), orders: map<OrderId, Order>)
    requires JobOrdersInv(orders, jobs) && (st.DoClaim? || st.DoClaimSpecific?) && r.1.Granted?
    requires r == if st.DoClaim? then J.ClaimAny(jobs, st.key, st.w, st.now, st.leaseFor)
                  else J.ClaimSpecific(jobs, st.key, st.generation, st.w, st.now, st.leaseFor)
    ensures ClaimInv(r.1.claim, r.0) && r.0 == J.Next(jobs, st)
  {
    if st.DoClaimSpecific? { JI.ClaimSpecificCases(jobs, st.key, st.generation, st.w, st.now, st.leaseFor); }
    assert JobOrderInv(st.key, jobs[st.key], orders);
    assert r == J.Lease(jobs, st.key, st.w, st.now, st.leaseFor);
  }

  lemma EndHandlerKeeps(s: Sys, run: nat, end: HandlerEnd, until: Time)
    requires Inv(s)
    ensures var s' := EndHandler(s, run, end, until); Inv(s') && Forward(s.db.orders, s'.db.orders)
  {
    ForwardRefl(s.db.orders);
    if run in s.runs && s.runs[run].Working? {
      var c := s.runs[run].claim;
      var (jobs, held) := J.Heartbeat(s.db.jobs, c.key, c.owner, c.attempt, until);
      JobsOnlyKeeps(s, J.DoHeartbeat(c.key, c.owner, c.attempt, until));
      var s1 := WithJobs(s, jobs);
      assert RunInv(s1.runs[run], s1.db.orders, jobs);
      var next := if held then Decide(c, end) else Ended;
      DecideInv(c, end, s1.db.orders, jobs);
      RunsOnlyKeeps(s1, run, next);
      assert EndHandler(s, run, end, until) == s1.(runs := s.runs[run := next]);
    } else {
      assert EndHandler(s, run, end, until) == s;
    }
  }

  lemma DecideInv(c: J.Claim, end: HandlerEnd, orders: map<OrderId, Order>, jobs: J.Table)
    requires ClaimInv(c, jobs)
    ensures RunInv(Decide(c, end), orders, jobs)
  {
  }

  /**
   The store's own retry-to-dead-letter fallback never fires for a worker: when a worker asks for a
   retry, the lease it still holds has attempts left, because its budget is the stored one.
   */
  lemma FallbackUnreachable(s: Sys, run: nat, now: Time, retryAt: Option<Time>)
    requires Inv(s) && run in s.runs && s.runs[run].Finishing?
    requires J.Finish(s.db.jobs, s.runs[run].claim, s.runs[run].outcome, now, retryAt).Ok?
    ensures s.runs[run].claim.key in s.db.jobs
    ensures J.FinalOutcome(s.db.jobs[s.runs[run].claim.key], s.runs[run].outcome) == s.runs[run].outcome
  {
    assert RunInv(s.runs[run], s.db.orders, s.db.jobs);
    FinishHeld(s.db.jobs, s.runs[run].claim, s.runs[run].outcome, now, retryAt);
  }

  lemma FinishHeld(jobs: J.Table, c: J.Claim, outcome: J.Outcome, now: Time, retryAt: Option<Time>)
    requires J.Inv(jobs) && J.Finish(jobs, c, outcome, now, retryAt).Ok?
    ensures P.Holds(jobs, c)
  {
    P.FinishExactlyForHolder(jobs, c, outcome, now, retryAt);
  }

  /** The tables after a worker's finish: one row takes the outcome's state, the rest stay. */
  ghost predicate FinishedOne(jobs: J.Table, jobs': J.Table, key: J.JobKey, state: J.JobState) {
    && key in jobs && jobs'.Keys == jobs.Keys
    && (forall k :: k in jobs && k != key ==> jobs'[k] == jobs[k])
    && jobs'[key].row.state == state && state != J.Leased
    && jobs'[key].row.orderId == jobs[key].row.orderId && jobs'[key].row.kind == jobs[key].row.kind
    && jobs'[key].row.attemptCount == jobs[key].row.attemptCount
  }

  lemma FinishedOneKeeps(
      s: Sys, jobs': J.Table, key: J.JobKey, state: J.JobState)
    requires Inv(s) && J.Inv(jobs') && FinishedOne(s.db.jobs, jobs', key, state)
    requires state in {J.ManualReview, J.DeadLetter} ==>
               key.orderId in s.db.orders && s.db.orders[key.orderId].fulfillment == InManualReview
    ensures Inv(WithJobs(s, jobs'))
  {
    var orders, jobs := s.db.orders, s.db.jobs;
    forall k | k in jobs' ensures JobOrderInv(k, jobs'[k], orders) { assert JobOrderInv(k, jobs[k], orders); }
    forall i | i in orders ensures OrderInv(orders[i], i, jobs') { assert OrderInv(orders[i], i, jobs); }
    forall r | r in s.runs ensures RunInv(s.runs[r], orders, jobs') { assert RunInv(s.runs[r], orders, jobs); }
  }

  lemma FinishKeeps(s: Sys, run: nat, now: Time, retryAt: Time)
    requires Inv(s)
    ensures var s' := Finish(s, run, now, retryAt); Inv(s') && Forward(s.db.orders, s'.db.orders)
  {
    ForwardRefl(s.db.orders);
    if run in s.runs && s.runs[run].Finishing? {
      var Finishing(c, outcome) := s.runs[run];
      var at := if outcome == J.Retrying then Some(retryAt) else None;
      RunsOnlyKeeps(s, run, Ended);
      var ended := s.(runs := s.runs[run := Ended]);
      match J.Finish(s.db.jobs, c, outcome, now, at)
      case Ok(jobs') =>
        FinishingKeeps(s, run, now, at, jobs');
        assert Finish(s, run, now, retryAt) == WithJobs(ended, jobs');
      case Err(_) =>
        assert Finish(s, run, now, retryAt) == ended;
    } else {
      assert Finish(s, run, now, retryAt) == s;
    }
  }

  lemma FinishingKeeps(s: Sys, run: nat, now: Time, at: Option<Time>, jobs': J.Table)
    requires Inv(s) && run in s.runs && s.runs[run].Finishing?
    requires J.Finish(s.db.jobs, s.runs[run].claim, s.runs[run].outcome, now, at) == Ok(jobs')
    ensures Inv(WithJobs(s.(runs := s.runs[run := Ended]), jobs'))
  {
    var Finishing(c, outcome) := s.runs[run];
    assert RunInv(s.runs[run], s.db.orders, s.db.jobs);
    FallbackUnreachable(s, run, now, at);
    JI.FinishKeeps(s.db.jobs, c, outcome, now, at);
    JI.FinishResult(s.db.jobs, c, outcome, now, at);
    RunsOnlyKeeps(s, run, Ended);
    FinishedOneKeeps(s.(runs := s.runs[run := Ended]), jobs', c.key, J.StateOf(outcome));
  }

  // ---------------------------------------------------------------- Stripe events

  /** Queuing is the first thing that ever happens to an order's fulfillment, and it creates the stamp job. */
  lemma QueueKeeps(s: Sys, id: OrderId, o': Order, now: Time)
    requires Inv(s) && id in s.db.orders
    requires var o := s.db.orders[id];
             o.payment in {CheckoutOpen, Processing} && o'.payment == Paid && o'.fulfillment == Queued
    ensures s.db.orders[id].fulfillment == AwaitingPayment && StampKey(id) !in s.db.jobs
    ensures var s' := WithOrder(EnqueueFor(s, id, "stamp", J.StampJob, now), id, o');
            Inv(s') && Forward(s.db.orders, s'.db.orders) && StampKey(id) in s'.db.jobs
  {
    var orders, orders', jobs := s.db.orders, s.db.orders[id := o'], s.db.jobs;
    assert OrderInv(orders[id], id, jobs);
    var jobs' := J.Enqueue(jobs, StampKey(id), id, J.StampJob, 10, now).0;
    JI.EnqueueKeeps(jobs, StampKey(id), id, J.StampJob, 10, now);
    EnqueueAdds(jobs, StampKey(id), id, J.StampJob, now);
    OneOrderChanges(orders, id, o', jobs);
    forall i | i in orders' ensures OrderInv(orders'[i], i, jobs') { assert OrderInv(orders[i], i, jobs); }
    JobsSurviveOrders(orders, orders', jobs);
    forall k | k in jobs' ensures JobOrderInv(k, jobs'[k], orders') {
      if k in jobs { assert JobOrderInv(k, jobs[k], orders'); }
    }
    RunsSurviveInsert(s.runs, orders, jobs, jobs');
    RunsSurviveOrders(s.runs, orders, orders', jobs');
    ReviewsSurviveOrders(s.reviews, orders, orders');
  }

  /** A payment change that does not queue the order leaves its fulfillment and jobs alone. */
  lemma PaymentKeeps(s: Sys, id: OrderId, o': Order)
    requires Inv(s) && id in s.db.orders
    requires var o := s.db.orders[id];
             && (o'.payment == o.payment || (o'.payment in PaymentTargets(o.payment) && o'.payment != Paid))
             && o'.fulfillment == o.fulfillment
    ensures var s' := WithOrder(s, id, o'); Inv(s') && Forward(s.db.orders, s'.db.orders)
  {
    var orders, orders', jobs := s.db.orders, s.db.orders[id := o'], s.db.jobs;
    assert OrderInv(orders[id], id, jobs);
    OneOrderChanges(orders, id, o', jobs);
    OrdersSurvive(orders, id, o', jobs);
    JobsSurviveOrders(orders, orders', jobs);
    RunsSurviveOrders(s.runs, orders, orders', jobs);
    ReviewsSurviveOrders(s.reviews, orders, orders');
  }

  lemma BoundKeeps(s: Sys, e: Event, hash: bytes, id: OrderId, c: Canonical, now: Time)
    requires Inv(s) && id in s.db.orders
    ensures var s' := s.(db := Bound(s.db, e, hash, id, c, now).0);
            Inv(s') && Forward(s.db.orders, s'.db.orders)
  {
    ForwardRefl(s.db.orders);
    var o := s.db.orders[id];
    var db' := Bound(s.db, e, hash, id, c, now).0;
    if db' != s.db {
      var (payment, changed) := ApplyEvent(o.payment, e, c);
      ApplyFacts(o.payment, e, c);
      if changed && payment == Paid {
        QueueKeeps(s, id, db'.orders[id], now);
        assert s.(db := db').db.(events := s.db.events)
               == WithOrder(EnqueueFor(s, id, "stamp", J.StampJob, now), id, db'.orders[id]).db;
      } else {
        PaymentKeeps(s, id, db'.orders[id]);
        assert db'.(events := s.db.events) == WithOrder(s, id, db'.orders[id]).db;
      }
    }
  }

  lemma ApplyFacts(p: Payment, e: Event, c: Canonical)
    ensures var (p', changed) := ApplyEvent(p, e, c);
            && (changed <==> p' != p) && (changed ==> p' in PaymentTargets(p))
            && (changed && p' == Paid ==> p in {CheckoutOpen, Processing})
  {
  }

  lemma ProcessCases(db: Db, st: Settings, e: Event, hash: bytes, found: Option<OrderId>, c: Option<Canonical>,
                     now: Time)
    ensures var db' := Process(db, st, e, hash, found, c, now).0;
            || (db'.orders == db.orders && db'.jobs == db.jobs)
            || (found.Some? && found.value in db.orders && c.Some?
               && db' == Bound(db, e, hash, found.value, c.value, now).0)
  {
  }

  lemma ProcessKeeps(s: Sys, st: Settings, e: Event, hash: bytes, found: Option<OrderId>, c: Option<Canonical>,
                     now: Time)
    requires Inv(s)
    ensures var s' := s.(db := Process(s.db, st, e, hash, found, c, now).0);
            Inv(s') && Forward(s.db.orders, s'.db.orders)
  {
    ForwardRefl(s.db.orders);
    ProcessCases(s.db, st, e, hash, found, c, now);
    var db' := Process(s.db, st, e, hash, found, c, now).0;
    if db'.orders != s.db.orders || db'.jobs != s.db.jobs {
      BoundKeeps(s, e, hash, found.value, c.value, now);
    }
  }

  // ---------------------------------------------------------------- every step, every run

  lemma PlaceKeeps(s: Sys, id: OrderId, o: Order)
    requires Inv(s) && id !in s.db.orders && o.payment == CheckoutOpen && o.fulfillment == AwaitingPayment
    ensures var s' := WithOrder(s, id, o); Inv(s') && Forward(s.db.orders, s'.db.orders)
  {
    var orders, orders', jobs := s.db.orders, s.db.orders[id := o], s.db.jobs;
    assert StampKey(id) in jobs ==> JobOrderInv(StampKey(id), jobs[StampKey(id)], orders);
    forall i | i in orders' ensures OrderInv(orders'[i], i, jobs) {
      if i != id { assert OrderInv(orders[i], i, jobs); }
    }
    JobsSurviveOrders(orders, orders', jobs);
    RunsSurviveOrders(s.runs, orders, orders', jobs);
    ReviewsSurviveOrders(s.reviews, orders, orders');
  }

  /** The steps of a worker run. */
  predicate ByRun(step: Step) {
    || step.ClaimJob? || step.ClaimTask? || step.KeepAlive? || step.UnknownKind? || step.HandlerMoves?
    || step.HandlerEnqueues? || step.HandlerEnds? || step.RecordReview? || step.FinishRun?
  }

  lemma RunStepKeeps(s: Sys, step: Step)
    requires Inv(s) && ByRun(step)
    ensures var s' := Next(s, step); Inv(s') && Forward(s.db.orders, s'.db.orders)
  {
    ForwardRefl(s.db.orders);
    var run := step.run;
    if run in s.runs { assert RunInv(s.runs[run], s.db.orders, s.db.jobs); }
    match step
    case ClaimJob(_, key, w, now, d) =>
      ClaimedKeeps(s, run, J.DoClaim(key, w, now, d), J.ClaimAny(s.db.jobs, key, w, now, d));
    case ClaimTask(_, key, g, w, now, d) =>
      ClaimedKeeps(s, run, J.DoClaimSpecific(key, g, w, now, d), J.ClaimSpecific(s.db.jobs, key, g, w, now, d));
    case KeepAlive(_, until) =>
      if run in s.runs && s.runs[run].Working? {
        var c := s.runs[run].claim;
        JobsOnlyKeeps(s, J.DoHeartbeat(c.key, c.owner, c.attempt, until));
      }
    case UnknownKind(_) =>
      if run in s.runs && s.runs[run].Working? {
        RunsOnlyKeeps(s, run, Reviewing(s.runs[run].claim, J.ToManualReview, "job_kind_unknown"));
      }
    case HandlerMoves(_, target) => MoveKeeps(s, run, target);
    case HandlerEnqueues(_, tag, kind, at) =>
      if run in s.runs && s.runs[run].Working? && tag != "stamp" && kind != J.StampJob {
        ClaimedOrderStarted(s, s.runs[run].claim);
        EnqueueForKeeps(s, s.runs[run].claim.orderId, tag, kind, at);
      }
    case HandlerEnds(_, end, until) => EndHandlerKeeps(s, run, end, until);
    case RecordReview(_) => ReviewKeeps(s, run);
    case FinishRun(_, now, retryAt) => FinishKeeps(s, run, now, retryAt);
  }

  lemma NextKeeps(s: Sys, step: Step)
    requires Inv(s)
    ensures var s' := Next(s, step); Inv(s') && Forward(s.db.orders, s'.db.orders)
  {
    ForwardRefl(s.db.orders);
    if ByRun(step) {
      RunStepKeeps(s, step);
    } else {
      match step
      case PlaceOrder(id, amount, currency, mode) =>
        if id !in s.db.orders {
          PlaceKeeps(s, id, Order(CheckoutOpen, AwaitingPayment, None, None, amount, currency, mode));
        }
      case OpenSession(id, session) =>
        if id in s.db.orders { PaymentKeeps(s, id, s.db.orders[id].(sessionId := Some(session))); }
      case StripeEvent(st, e, hash, found, canonical, now) => ProcessKeeps(s, st, e, hash, found, canonical, now);
      case OperatorEnqueues(id, tag, at) =>
        if id in s.db.orders && s.db.orders[id].fulfillment in {CalendarPending, BitcoinVerified, Delivered}
           && tag != "stamp" {
          EnqueueForKeeps(s, id, tag, J.UpgradeJob, at);
        }
      case OperatorReplays(key, now) => JobsOnlyKeeps(s, J.DoReplay(key, now));
      case RecoverTask(key, now, grace) => JobsOnlyKeeps(s, J.DoRecover(key, now, grace));
      case TaskRecorded(key, g, now, ok) => JobsOnlyKeeps(s, J.DoDispatch(key, g, now, ok));
      case NoticeDelivered(id) =>
        if id in s.db.orders && s.db.orders[id].fulfillment == BitcoinVerified {
          OrderMoveKeeps(s, id, s.db.orders[id].(fulfillment := Delivered));
        }
    }
  }

  // ---------------------------------------------------------------- main results

  lemma {:induction false} RunKeeps(s: Sys, steps: seq<Step>)
    requires Inv(s)
    ensures Inv(Run(s, steps))
    decreases |steps|
  {
    if steps != [] {
      NextKeeps(s, steps[0]);
      RunKeeps(Next(s, steps[0]), steps[1..]);
    }
  }

  /**
   Paid before work: in every reachable state an order is charged as soon as its work has begun, has its
   stamp job exactly then, never more than that one, and no job at all before.
   */
  lemma PaidBeforeWork(steps: seq<Step>, id: OrderId)
    requires id in Run(Initial, steps).db.orders
    ensures var s := Run(Initial, steps);
            var o := s.db.orders[id];
            && (o.fulfillment != AwaitingPayment ==> Charged(o.payment))
            && (o.fulfillment != AwaitingPayment <==> StampKey(id) in s.db.jobs)
            && (o.payment == Paid ==> o.fulfillment != AwaitingPayment)
            && (o.fulfillment == AwaitingPayment ==> forall k :: k in s.db.jobs ==> k.orderId != id)
            && (forall k :: k in s.db.jobs && k.orderId == id && s.db.jobs[k].row.kind == J.StampJob ==>
                  k == StampKey(id))
  {
    var s := Run(Initial, steps);
    RunKeeps(Initial, steps);
    assert OrderInv(s.db.orders[id], id, s.db.jobs);
    forall k | k in s.db.jobs ensures JobOrderInv(k, s.db.jobs[k], s.db.orders) {
    }
  }

  /** A failed job's order is in manual review in every reachable state. */
  lemma FailedJobsAreReviewed(steps: seq<Step>, k: J.JobKey)
    requires k in Run(Initial, steps).db.jobs
    requires Run(Initial, steps).db.jobs[k].row.state in {J.ManualReview, J.DeadLetter}
    ensures var s := Run(Initial, steps);
            var id := s.db.jobs[k].row.orderId;
            id in s.db.orders && s.db.orders[id].fulfillment == InManualReview
  {
    var s := Run(Initial, steps);
    RunKeeps(Initial, steps);
    assert JobOrderInv(k, s.db.jobs[k], s.db.orders);
  }

  /** The number of steps in which the order's payment state changed. */
  function PaymentChanges(s: Sys, steps: seq<Step>, id: OrderId): nat
    decreases |steps|
  {
    if steps == [] then 0
    else
      var s' := Next(s, steps[0]);
      (if id in s.db.orders && id in s'.db.orders && s'.db.orders[id].payment != s.db.orders[id].payment then 1 else 0)
      + PaymentChanges(s', steps[1..], id)
  }

  /** The number of steps in which the order's payment became `paid`. */
  function PaidEntries(s: Sys, steps: seq<Step>, id: OrderId): nat
    decreases |steps|
  {
    if steps == [] then 0
    else
      var s' := Next(s, steps[0]);
      (if id in s.db.orders && id in s'.db.orders && s'.db.orders[id].payment == Paid && s.db.orders[id].payment != Paid
       then 1 else 0)
      + PaidEntries(s', steps[1..], id)
  }

  /** Whether payment can still become `paid`. */
  predicate Payable(p: Payment) { p in {CheckoutOpen, Processing} }

  /**
   Over every run payment changes at most as often as its fuel allows, four times from a fresh order, and
   enters `paid` at most once; fulfillment only moves forward and never leaves manual review.
   */
  lemma {:induction false} OrderHistory(s: Sys, steps: seq<Step>, id: OrderId)
    requires Inv(s) && id in s.db.orders
    ensures id in Run(s, steps).db.orders
    ensures var o, o' := s.db.orders[id], Run(s, steps).db.orders[id];
            && PaymentChanges(s, steps, id) + PaymentFuel(o'.payment) <= PaymentFuel(o.payment) <= 4
            && PaidEntries(s, steps, id) + (if Payable(o'.payment) then 1 else 0)
               <= (if Payable(o.payment) then 1 else 0)
            && (o'.fulfillment == o.fulfillment || Stage(o.fulfillment) < Stage(o'.fulfillment))
            && (o.fulfillment == InManualReview ==> o'.fulfillment == InManualReview)
    decreases |steps|
  {
    if steps != [] {
      var s1 := Next(s, steps[0]);
      NextKeeps(s, steps[0]);
      var o, o1 := s.db.orders[id], s1.db.orders[id];
      assert OrderForward(o, o1);
      PaymentStep(o.payment, o1.payment);
      FulfillmentForward(o1.payment, o.fulfillment, o1.fulfillment);
      OrderHistory(s1, steps[1..], id);
    }
  }

  lemma PaymentStep(p: Payment, p': Payment)
    requires p' == p || p' in PaymentTargets(p)
    ensures (if p' != p then 1 else 0) + PaymentFuel(p') <= PaymentFuel(p)
    ensures (if p' == Paid && p != Paid then 1 else 0) + (if Payable(p') then 1 else 0) <= (if Payable(p) then 1 else 0)
  {
  }

  /** An order refunded, disputed, failed or expired before payment never gets a job, whatever follows. */
  lemma LostBeforePaymentNeverWorks(s: Sys, steps: seq<Step>, id: OrderId)
    requires Inv(s) && id in s.db.orders && s.db.orders[id].fulfillment == AwaitingPayment
    requires s.db.orders[id].payment in {Refunded, Disputed, Failed, Expired}
    ensures var s' := Run(s, steps);
            && id in s'.db.orders && s'.db.orders[id].fulfillment == AwaitingPayment
            && (forall k :: k in s'.db.jobs ==> k.orderId != id)
    decreases |steps|
  {
    if steps == [] {
      forall k | k in s.db.jobs ensures JobOrderInv(k, s.db.jobs[k], s.db.orders) {
      }
    } else {
      var s1 := Next(s, steps[0]);
      NextKeeps(s, steps[0]);
      assert OrderForward(s.db.orders[id], s1.db.orders[id]);
      NoWorkWithoutPaying(s, steps[0], id);
      LostBeforePaymentNeverWorks(s1, steps[1..], id);
    }
  }

  /** Only the step that makes payment `paid` can end `awaiting_payment`. */
  lemma NoWorkWithoutPaying(s: Sys, step: Step, id: OrderId)
    requires Inv(s) && id in s.db.orders && s.db.orders[id].fulfillment == AwaitingPayment
    ensures var s' := Next(s, step);
            id in s'.db.orders && (s'.db.orders[id].fulfillment != AwaitingPayment ==> s'.db.orders[id].payment == Paid)
  {
    var s' := Next(s, step);
    NextKeeps(s, step);
    assert OrderForward(s.db.orders[id], s'.db.orders[id]);
    if s'.db.orders[id].fulfillment != AwaitingPayment {
      if s'.db.orders[id].fulfillment == InManualReview { WhoReviews(s, step, id); }
    }
  }

  /** Manual review is only ever written for an order whose work has begun. */
  lemma WhoReviews(s: Sys, step: Step, id: OrderId)
    requires Inv(s) && id in s.db.orders && s.db.orders[id].fulfillment == AwaitingPayment
    ensures id in Next(s, step).db.orders ==> Next(s, step).db.orders[id].fulfillment != InManualReview
  {
    if ByRun(step) && step.run in s.runs {
      assert RunInv(s.runs[step.run], s.db.orders, s.db.jobs);
      if !s.runs[step.run].Ended? { ClaimedOrderStarted(s, s.runs[step.run].claim); }
    }
  }
}
