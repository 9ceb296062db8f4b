/**
 The Stripe webhook: event deduplication, binding of an event to the reserved checkout, and the one
 writer that queues an order for fulfillment.
 */
module Payments {
  import opened Prelude
  import opened Orders
  import Jobs

  type OrderId = Jobs.OrderId

  datatype PaymentMode = DisabledMode | FixtureMode | StripeTest | StripeLive

  datatype EventType =
    | SessionCompleted | AsyncSucceeded | AsyncFailed | SessionExpired
    | ChargeRefunded | RefundCreated | RefundUpdated
    | DisputeCreated | DisputeUpdated | OtherEvent(name: string)

  datatype Event = Event(
    id: string, kind: EventType, livemode: bool, sessionId: Option<string>, paymentIntent: Option<string>,
    refundStatus: Option<string>, refundedAmount: Option<int>)

  /** The checkout session as retrieved from the provider. */
  datatype Canonical = Canonical(
    sessionId: string, paymentIntent: Option<string>, livemode: bool, mode: string, status: string,
    paymentStatus: string, metadata: map<string, OrderId>, priceId: string, amountTotal: int, currency: string,
    quantity: int, refundStatus: Option<string>, refundedTotal: int)

  datatype Settings = Settings(mode: PaymentMode, priceId: string)

  datatype Order = Order(
    payment: Payment, fulfillment: Fulfillment, sessionId: Option<string>, paymentIntent: Option<string>,
    amountMinor: int, currency: string, mode: PaymentMode)

  /** A processed event; `error` is its safe error code. */
  datatype Recorded = Recorded(kind: EventType, livemode: bool, payloadHash: bytes, error: Option<string>)

  datatype WebhookResult = WebhookResult(duplicate: bool, accepted: bool) | WebhookRaised(code: string)

  datatype Db = Db(orders: map<OrderId, Order>, events: map<string, Recorded>, jobs: Jobs.Table)

  predicate AuthoritativeFullRefund(e: Event, c: Canonical) {
    && e.refundStatus == Some("succeeded")
    && e.refundedAmount.Some? && e.refundedAmount.value > 0
    && c.refundStatus == Some("succeeded")
    && c.refundedTotal == c.amountTotal
    && c.amountTotal > 0
  }

  predicate RefundKind(k: EventType) { k in {ChargeRefunded, RefundCreated, RefundUpdated} }

  predicate BaseBinding(st: Settings, id: OrderId, o: Order, e: Event, c: Canonical) {
    && e.livemode == (st.mode == StripeLive)
    && c.livemode == (st.mode == StripeLive)
    && c.mode == "payment"
    && c.metadata == map["order_id" := id]
    && Some(c.sessionId) == o.sessionId
    && (e.sessionId == None || e.sessionId == Some(c.sessionId))
    && (e.paymentIntent == None || e.paymentIntent == c.paymentIntent)
    && (o.paymentIntent == None || o.paymentIntent == c.paymentIntent)
    && c.priceId == st.priceId
    && c.amountTotal == o.amountMinor
    && c.currency == o.currency
    && c.quantity == 1
    && o.mode == st.mode
    && st.mode in {FixtureMode, StripeTest, StripeLive}
  }

  predicate IntentRequired(e: Event, c: Canonical) {
    || e.kind in {AsyncSucceeded, ChargeRefunded, RefundCreated, RefundUpdated, DisputeCreated, DisputeUpdated}
    || (e.kind == SessionCompleted && c.paymentStatus == "paid")
  }

  predicate ValidBinding(st: Settings, id: OrderId, o: Order, e: Event, c: Canonical) {
    if !BaseBinding(st, id, o, e, c) then false
    else if e.kind in {SessionCompleted, AsyncSucceeded, AsyncFailed} && c.status != "complete" then false
    else if e.kind == SessionExpired && c.status != "expired" then false
    else if RefundKind(e.kind) && !AuthoritativeFullRefund(e, c) then true
    else !IntentRequired(e, c) || (e.paymentIntent.Some? && e.paymentIntent == c.paymentIntent)
  }

  /** The payment state an event asks for, if any. */
  function Target(e: Event, c: Canonical): Option<Payment> {
    match e.kind
    case SessionCompleted =>
      if c.paymentStatus == "paid" then Some(Paid)
      else if c.paymentStatus == "unpaid" then Some(Processing)
      else None
    case AsyncSucceeded => if c.paymentStatus != "paid" then None else Some(Paid)
    case AsyncFailed => if c.paymentStatus == "paid" then None else Some(Failed)
    case SessionExpired => Some(Expired)
    case ChargeRefunded | RefundCreated | RefundUpdated =>
      if AuthoritativeFullRefund(e, c) then Some(Refunded) else None
    case DisputeCreated | DisputeUpdated => Some(Disputed)
    case OtherEvent(_) => None
  }

  /** `_apply_event`: the new payment state, and whether it changed. */
  function ApplyEvent(p: Payment, e: Event, c: Canonical): (Payment, bool) {
    match Target(e, c)
    case None => (p, false)
    case Some(target) =>
      match TransitionPayment(p, target)
      case Some(p') => (p', p' != p)
      case None => (p, false)
  }

  function StampKey(id: OrderId): Jobs.JobKey { Jobs.JobKey("stamp", id) }

  /** Another order already carries the payment intent: the unique constraint rolls everything back. */
  predicate IntentTaken(orders: map<OrderId, Order>, id: OrderId, intent: Option<string>) {
    intent.Some? && exists other :: other in orders && other != id && orders[other].paymentIntent == intent
  }

  function DuplicateResult(r: Recorded, e: Event, hash: bytes): WebhookResult {
    var exact := r.payloadHash == hash && r.kind == e.kind && r.livemode == e.livemode;
    WebhookResult(exact, exact && r.error.None?)
  }

  /**
   `WebhookService.process` from its locking transaction on.  `found` is the order the lookup returned
   and `canonical` the session retrieved for it, both chosen by the environment.
   */
  function Process(
      db: Db, st: Settings, e: Event, hash: bytes, found: Option<OrderId>, canonical: Option<Canonical>, now: Time)
    : (Db, WebhookResult)
  {
    if e.livemode != (st.mode == StripeLive) then (db, WebhookRaised("payment_signature_error"))
    else if e.id in db.events then (db, DuplicateResult(db.events[e.id], e, hash))
    else if found.None? || found.value !in db.orders || db.orders[found.value].sessionId.None? || canonical.None? then
      (db.(events := db.events[e.id := Recorded(e.kind, e.livemode, hash, Some("order_binding_invalid"))]),
       WebhookResult(false, false))
    else if !ValidBinding(st, found.value, db.orders[found.value], e, canonical.value) then
      (db.(events := db.events[e.id := Recorded(e.kind, e.livemode, hash, Some("payment_binding_invalid"))]),
       WebhookResult(false, false))
    else Bound(db, e, hash, found.value, canonical.value, now)
  }

  /** The transaction once the event is bound to its order. */
  function Bound(db: Db, e: Event, hash: bytes, id: OrderId, c: Canonical, now: Time): (Db, WebhookResult)
    requires id in db.orders
  {
    var o := db.orders[id];
    var (payment, changed) := ApplyEvent(o.payment, e, c);
    var intent := if c.paymentIntent.Some? && o.paymentIntent.None? then c.paymentIntent else o.paymentIntent;
    if intent != o.paymentIntent && IntentTaken(db.orders, id, intent) then (db, WebhookRaised("integrity_error"))
    else
      var queues := changed && payment == Paid;
      var o' := o.(payment := payment, paymentIntent := intent,
                   fulfillment := if queues then Queued else o.fulfillment);
      var jobs := if queues then Jobs.Enqueue(db.jobs, StampKey(id), id, Jobs.StampJob, 10, now).0 else db.jobs;
      (Db(db.orders[id := o'], db.events[e.id := Recorded(e.kind, e.livemode, hash, None)], jobs),
       WebhookResult(false, true))
  }

  // ---------------------------------------------------------------- what an accepted event means

  /** Payment becomes `paid` only on the provider's own word about this very session, price and intent. */
  lemma PaidIsAuthoritative(st: Settings, id: OrderId, o: Order, e: Event, c: Canonical)
    requires ValidBinding(st, id, o, e, c)
    requires ApplyEvent(o.payment, e, c) == (Paid, true)
    ensures o.payment in {CheckoutOpen, Processing}
    ensures c.paymentStatus == "paid" && c.status == "complete" && o.sessionId == Some(c.sessionId)
    ensures c.amountTotal == o.amountMinor && c.currency == o.currency && c.priceId == st.priceId && c.quantity == 1
    ensures e.paymentIntent.Some? && e.paymentIntent == c.paymentIntent
    ensures e.kind in {SessionCompleted, AsyncSucceeded}
  {
  }

  /** Payment becomes `refunded` exactly when a legal source state meets an authoritative full refund. */
  lemma RefundIsFull(p: Payment, e: Event, c: Canonical)
    ensures ApplyEvent(p, e, c) == (Refunded, true) <==>
              RefundKind(e.kind) && AuthoritativeFullRefund(e, c) && p in {CheckoutOpen, Processing, Paid, Disputed}
  {
  }
}
