/** The Stripe webhook service: one method that records the event and updates order and job rows in place. */
module PaymentStore {
  import opened Prelude
  import opened Orders
  import opened Payments
  import Jobs

  class WebhookService {
    const settings: Settings
    var orders: map<OrderId, Order>
    var events: map<string, Recorded>
    var jobs: Jobs.Table

    constructor (settings: Settings)
      ensures this.settings == settings && Contents() == Db(map[], map[], map[])
    {
      this.settings := settings;
      orders, events, jobs := map[], map[], map[];
    }

    ghost function Contents(): Db
      reads this
    {
      Db(orders, events, jobs)
    }

    method ProcessEvent(e: Event, hash: bytes, found: Option<OrderId>, canonical: Option<Canonical>, now: Time)
      returns (result: WebhookResult)
      modifies this
      ensures (Contents(), result) == Process(old(Contents()), settings, e, hash, found, canonical, now)
    {
      if e.livemode != (settings.mode == StripeLive) { return WebhookRaised("payment_signature_error"); }
      if e.id in events {
        var recorded := events[e.id];
        var exact := recorded.payloadHash == hash && recorded.kind == e.kind && recorded.livemode == e.livemode;
        return Payments.WebhookResult(exact, exact && recorded.error.None?);
      }
      if found.None? || found.value !in orders || orders[found.value].sessionId.None? || canonical.None? {
        events := events[e.id := Recorded(e.kind, e.livemode, hash, Some("order_binding_invalid"))];
        return Payments.WebhookResult(false, false);
      }
      if !ValidBinding(settings, found.value, orders[found.value], e, canonical.value) {
        events := events[e.id := Recorded(e.kind, e.livemode, hash, Some("payment_binding_invalid"))];
        return Payments.WebhookResult(false, false);
      }
      result := ApplyBound(e, hash, found.value, canonical.value, now);
    }

    method ApplyBound(e: Event, hash: bytes, id: OrderId, c: Canonical, now: Time) returns (result: WebhookResult)
      requires id in orders
      modifies this
      ensures (Contents(), result) == Bound(old(Contents()), e, hash, id, c, now)
    {
      var order := orders[id];
      var payment, changed := order.payment, false;
      var target := Target(e, c);
      if target.Some? && target.value != payment && target.value in PaymentTargets(payment) {
        payment, changed := target.value, true;
      }
      var intent := order.paymentIntent;
      if c.paymentIntent.Some? && intent.None? { intent := c.paymentIntent; }
      if intent != order.paymentIntent && IntentTaken(orders, id, intent) { return WebhookRaised("integrity_error"); }
      order := order.(payment := payment, paymentIntent := intent);
      if changed && payment == Paid {
        order := order.(fulfillment := Queued);
        jobs := Jobs.Enqueue(jobs, StampKey(id), id, Jobs.StampJob, 10, now).0;
      }
      orders := orders[id := order];
      events := events[e.id := Recorded(e.kind, e.livemode, hash, None)];
      result := Payments.WebhookResult(false, true);
    }
  }
}
