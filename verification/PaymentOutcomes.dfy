/** What the webhook makes of every event: which it accepts, and what an accepted one does to order and jobs. */
module PaymentOutcomes {
  import opened Prelude
  import opened Orders
  import opened Payments
  import Jobs

  // ---------------------------------------------------------------- which events count

  /** The provider's session is the order's own: same session, order id, price, amount, currency and mode. */
  predicate OwnSession(st: Settings, id: OrderId, o: Order, c: Canonical) {
    && o.sessionId == Some(c.sessionId) && c.metadata == map["order_id" := id]
    && c.priceId == st.priceId && c.amountTotal == o.amountMinor && c.currency == o.currency && c.quantity == 1
    && c.mode == "payment" && c.livemode == (st.mode == StripeLive)
    && o.mode == st.mode && st.mode != DisabledMode
    && (o.paymentIntent.Some? ==> o.paymentIntent == c.paymentIntent)
  }

  /** What the event names is what the session has. */
  predicate OwnEvent(e: Event, c: Canonical) {
    && (e.sessionId.Some? ==> e.sessionId.value == c.sessionId)
    && (e.paymentIntent.Some? ==> e.paymentIntent == c.paymentIntent)
  }

  /** The event names the session's payment. */
  predicate NamesPayment(e: Event, c: Canonical) {
    e.paymentIntent.Some? && c.paymentIntent.Some? && e.paymentIntent.value == c.paymentIntent.value
  }

  /** Event and session both say that everything was given back. */
  predicate FullRefund(e: Event, c: Canonical) {
    && e.refundStatus == Some("succeeded") && c.refundStatus == Some("succeeded")
    && e.refundedAmount.Some? && e.refundedAmount.value > 0
    && c.refundedTotal == c.amountTotal > 0
  }

  /** What an event of each kind must come with. */
  predicate Fitting(e: Event, c: Canonical) {
    match e.kind
    case SessionCompleted => c.status == "complete" && (c.paymentStatus == "paid" ==> NamesPayment(e, c))
    case AsyncSucceeded => c.status == "complete" && NamesPayment(e, c)
    case AsyncFailed => c.status == "complete"
    case SessionExpired => c.status == "expired"
    case ChargeRefunded | RefundCreated | RefundUpdated => FullRefund(e, c) ==> NamesPayment(e, c)
    case DisputeCreated | DisputeUpdated => NamesPayment(e, c)
    case OtherEvent(_) => true
  }

  lemma BindsExactly(st: Settings, id: OrderId, o: Order, e: Event, c: Canonical)
    ensures ValidBinding(st, id, o, e, c) <==>
              && e.livemode == (st.mode == StripeLive)
              && OwnSession(st, id, o, c) && OwnEvent(e, c) && Fitting(e, c)
  {
  }

  // ---------------------------------------------------------------- what they do to the payment

  /** The session is paid, and the event is one that says so. */
  predicate Pays(e: Event, c: Canonical) {
    (e.kind == SessionCompleted || e.kind == AsyncSucceeded) && c.paymentStatus == "paid"
  }

  /** The checkout is over and its payment still pending. */
  predicate Pends(e: Event, c: Canonical) { e.kind == SessionCompleted && c.paymentStatus == "unpaid" }

  predicate Fails(e: Event, c: Canonical) { e.kind == AsyncFailed && c.paymentStatus != "paid" }

  predicate Refunds(e: Event, c: Canonical) {
    (e.kind == ChargeRefunded || e.kind == RefundCreated || e.kind == RefundUpdated) && FullRefund(e, c)
  }

  predicate Disputes(e: Event) { e.kind == DisputeCreated || e.kind == DisputeUpdated }

  /** The payment state after an accepted event: each change has its events and the states it may come from. */
  function PaymentAfter(p: Payment, e: Event, c: Canonical): Payment {
    var open := p == CheckoutOpen || p == Processing;
    if Pays(e, c) && open then Paid
    else if Pends(e, c) && p == CheckoutOpen then Processing
    else if Fails(e, c) && open then Failed
    else if e.kind == SessionExpired && open then Expired
    else if Refunds(e, c) && (open || p == Paid || p == Disputed) then Refunded
    else if Disputes(e) && (open || p == Paid) then Disputed
    else p
  }

  /** For each state: the payment moves there exactly for its events, from the states that allow it. */
  lemma AppliesExactly(p: Payment, e: Event, c: Canonical)
    ensures ApplyEvent(p, e, c) == (PaymentAfter(p, e, c), PaymentAfter(p, e, c) != p)
  {
  }

  // ---------------------------------------------------------------- the whole event

  /** The recorded event is this very one, delivered again. */
  predicate SameDelivery(r: Recorded, e: Event, hash: bytes) {
    r.payloadHash == hash && r.kind == e.kind && r.livemode == e.livemode
  }

  /** The order as an accepted event leaves it. */
  function OrderAfter(o: Order, e: Event, c: Canonical): Order {
    var payment := PaymentAfter(o.payment, e, c);
    o.(payment := payment, paymentIntent := if o.paymentIntent.Some? then o.paymentIntent else c.paymentIntent,
       fulfillment := if payment == Paid && o.payment != Paid then Queued else o.fulfillment)
  }

  /** The stamp job a payment starts. */
  function StampJobFor(id: OrderId, now: Time): Jobs.Job {
    Jobs.Job(Jobs.Row(id, Jobs.StampJob, Jobs.Available, 1, 0, 10, now, None, None), map[],
             map[1 := Jobs.Dispatch(now, None, 0)])
  }

  /** The jobs after an accepted event: a payment starts the order's stamp job, once. */
  function JobsAfter(jobs: Jobs.Table, id: OrderId, o: Order, e: Event, c: Canonical, now: Time): Jobs.Table {
    var key := Jobs.JobKey("stamp", id);
    if PaymentAfter(o.payment, e, c) == Paid && o.payment != Paid && key !in jobs
    then jobs[key := StampJobFor(id, now)] else jobs
  }

  /** The session's payment is new to the order, and another order already has it. */
  ghost predicate PaymentTaken(orders: map<OrderId, Order>, id: OrderId, c: Canonical)
    requires id in orders
  {
    && orders[id].paymentIntent.None? && c.paymentIntent.Some?
    && exists other :: other in orders && other != id && orders[other].paymentIntent == c.paymentIntent
  }

  /**
   What the webhook makes of any event.  One for the other mode raises; a known one changes nothing and is a duplicate
   if it is the same delivery; one without its order, or that does not fit it, is recorded as refused; one whose payment
   belongs to another order raises; every other is recorded and applied.
   */
  ghost predicate WebhookOutcome(db: Db, st: Settings, e: Event, hash: bytes, found: Option<OrderId>,
                                 canonical: Option<Canonical>, now: Time, db': Db, result: WebhookResult)
  {
    if e.livemode != (st.mode == StripeLive) then db' == db && result == WebhookRaised("payment_signature_error")
    else if e.id in db.events then
      var same := SameDelivery(db.events[e.id], e, hash);
      db' == db && result == WebhookResult(same, same && db.events[e.id].error.None?)
    else if found.None? || found.value !in db.orders || db.orders[found.value].sessionId.None? || canonical.None? then
      && db' == db.(events := db.events[e.id := Recorded(e.kind, e.livemode, hash, Some("order_binding_invalid"))])
      && result == WebhookResult(false, false)
    else
      var id, o, c := found.value, db.orders[found.value], canonical.value;
      if !OwnSession(st, id, o, c) || !OwnEvent(e, c) || !Fitting(e, c) then
        && db' == db.(events := db.events[e.id := Recorded(e.kind, e.livemode, hash, Some("payment_binding_invalid"))])
        && result == WebhookResult(false, false)
      else if PaymentTaken(db.orders, id, c) then db' == db && result == WebhookRaised("integrity_error")
      else
        && db' == Db(db.orders[id := OrderAfter(o, e, c)],
                     db.events[e.id := Recorded(e.kind, e.livemode, hash, None)],
                     JobsAfter(db.jobs, id, o, e, c, now))
        && result == WebhookResult(false, true)
  }

  lemma WebhookExactly(db: Db, st: Settings, e: Event, hash: bytes, found: Option<OrderId>,
                       canonical: Option<Canonical>, now: Time)
    ensures var (db', result) := Process(db, st, e, hash, found, canonical, now);
            WebhookOutcome(db, st, e, hash, found, canonical, now, db', result)
  {
    if found.Some? && found.value in db.orders && canonical.Some? {
      var o, c := db.orders[found.value], canonical.value;
      BindsExactly(st, found.value, o, e, c);
      AppliesExactly(o.payment, e, c);
    }
  }

  /** A new event that says the order's own session is paid, with a payment no other order has. */
  ghost predicate FirstPayment(db: Db, st: Settings, e: Event, id: OrderId, c: Canonical) {
    && e.livemode == (st.mode == StripeLive) && e.id !in db.events && id in db.orders
    && OwnSession(st, id, db.orders[id], c) && OwnEvent(e, c) && NamesPayment(e, c)
    && Pays(e, c) && c.status == "complete" && db.orders[id].payment in {CheckoutOpen, Processing}
    && !PaymentTaken(db.orders, id, c)
  }

  /** Such an event always pays and queues the order, starts its stamp job, and is recorded as accepted. */
  lemma PaymentQueues(db: Db, st: Settings, e: Event, hash: bytes, id: OrderId, c: Canonical, now: Time)
    requires FirstPayment(db, st, e, id, c)
    ensures var (db', result) := Process(db, st, e, hash, Some(id), Some(c), now);
            && result == WebhookResult(false, true)
            && id in db'.orders && db'.orders[id].payment == Paid && db'.orders[id].fulfillment == Queued
            && Jobs.JobKey("stamp", id) in db'.jobs
            && (Jobs.JobKey("stamp", id) !in db.jobs ==>
                  db'.jobs[Jobs.JobKey("stamp", id)] == StampJobFor(id, now))
            && e.id in db'.events && db'.events[e.id].error.None?
  {
    WebhookExactly(db, st, e, hash, Some(id), Some(c), now);
  }

  /** And nothing else ever pays an order. */
  lemma OnlyPaymentsPay(db: Db, st: Settings, e: Event, hash: bytes, found: Option<OrderId>,
                        canonical: Option<Canonical>, now: Time, id: OrderId)
    requires id in db.orders && db.orders[id].payment != Paid
    ensures var db' := Process(db, st, e, hash, found, canonical, now).0;
            && id in db'.orders
            && (db'.orders[id].payment == Paid <==>
                  found == Some(id) && canonical.Some? && FirstPayment(db, st, e, id, canonical.value))
  {
    WebhookExactly(db, st, e, hash, found, canonical, now);
  }
}
