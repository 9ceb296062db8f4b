/** The checkout service and the order store: methods that update reservations, orders and tokens in place. */
module CheckoutStore {
  import opened Prelude
  import opened Orders
  import opened Checkout

  class CheckoutService {
    const check: UrlCheck
    const config: Config
    var reservations: map<bytes, Reservation>
    var orders: map<Ref, Order>
    var tokens: map<Ref, seq<Token>>
    var nextLease: nat
    var nextToken: nat

    constructor (check: UrlCheck, config: Config)
      ensures Contents() == Empty.db && this.check == check && this.config == config
    {
      this.check, this.config := check, config;
      reservations, orders, tokens, nextLease, nextToken := map[], map[], map[], 0, 0;
    }

    ghost function Contents(): Db
      reads this
    {
      Db(reservations, orders, tokens, nextLease, nextToken)
    }

    /** The loops of `issue_token`: revoke what is active, find the highest version, add the new token. */
    method IssueToken(ref: Ref, revoke: bool, now: Time) returns (raw: nat)
      modifies this
      ensures Contents() == IssueFor(old(Contents()), ref, revoke, now, config.ttl) && raw == old(nextToken)
    {
      var rows := TokensOf(tokens, ref);
      ghost var before := rows;
      if revoke {
        for i := 0 to |rows|
          invariant |rows| == |before|
          invariant forall j :: 0 <= j < i ==> rows[j] == Revoked(before[j], now)
          invariant forall j :: i <= j < |rows| ==> rows[j] == before[j]
        {
          if rows[i].revokedAt.None? { rows := rows[i := rows[i].(revokedAt := Some(now))]; }
        }
        assert rows == RevokeAll(before, now);
        RevokingKeepsVersions(before, now);
      }
      var sequence := HighestVersion(rows);
      raw := nextToken;
      nextToken := nextToken + 1;
      tokens := tokens[ref := rows + [Token(sequence + 1, raw, None, now + config.ttl)]];
    }

    static method HighestVersion(rows: seq<Token>) returns (highest: nat)
      ensures highest == MaxVersion(rows)
    {
      highest := 0;
      for i := 0 to |rows|
        invariant highest == MaxVersion(rows[..i])
      {
        assert rows[..i + 1][..i] == rows[..i];
        if rows[i].version > highest { highest := rows[i].version; }
      }
      assert rows[..|rows|] == rows;
    }

    method ReserveCheckout(key: bytes, hash: bytes, email: string, ref: Ref, now: Time) returns (reply: Reply)
      modifies this
      ensures (Contents(), reply) == Reserve(check, old(Contents()), config, key, hash, email, ref, now)
    {
      if key in reservations {
        if reservations[key].requestHash != hash { return Refused(Conflict("key_bound_to_another_request")); }
        reply := ResumeCheckout(key, hash, now);
        return;
      }
      if ref in orders { return Refused(IntegrityError); }
      var lease := nextLease;
      nextLease := nextLease + 1;
      var reservation := Reservation(hash, ref, config.priceId, config.successUrl, config.cancelUrl, InProcess, lease,
                                     now + config.grace, None, None);
      var order := Order(config.mode, email, config.amount, config.currency, None, CheckoutOpen, AwaitingPayment);
      orders := orders[ref := order];
      reservations := reservations[key := reservation];
      reply := Planned(PlanOf(key, reservation, order));
    }

    method ResumeCheckout(key: bytes, hash: bytes, now: Time) returns (reply: Reply)
      requires key in reservations
      modifies this
      ensures (Contents(), reply) == Resume(check, old(Contents()), config, key, hash, now)
    {
      var reservation := reservations[key];
      if reservation.order !in orders { return Refused(Conflict("reserved_order_unavailable")); }
      var order := orders[reservation.order];
      if order.mode != config.mode { return Refused(Conflict("payment_mode_mismatch")); }
      if reservation.leaseExpiresAt > now { return Refused(InProgress); }
      var lease := nextLease;
      reservation := reservation.(lease := lease);
      reservation := reservation.(leaseExpiresAt := now + config.grace);
      if reservation.state == Completed {
        var refusal := ReplayRefusal(reservation);
        if refusal.Some? { return Refused(refusal.value); }
        nextLease := nextLease + 1;
        reservations := reservations[key := reservation];
        var body := reservation.body.value;
        var raw := IssueToken(body.order, true, now);
        return Answered(Output(body.order, raw, body.url, body.payment, body.fulfillment));
      }
      nextLease := nextLease + 1;
      reservations := reservations[key := reservation];
      reply := Planned(PlanOf(key, reservation, order));
    }

    /** The checks of `_replay` that come before its token. */
    function ReplayRefusal(r: Reservation): Option<Refusal>
      reads this
      ensures ReplayRefusal(r).None? ==>
                r.state == Completed && r.body.Some? && r.body.value.order in orders
                  && orders[r.body.value.order].session.Some?
    {
      if r.state != Completed || r.completedAt.None? || r.body.None? then Some(Conflict("request_incomplete"))
      else if r.body.value.order !in orders || orders[r.body.value.order].session.None? then
        Some(Conflict("order_unavailable"))
      else if !check(r.body.value.url, orders[r.body.value.order].session.value, config.mode) then
        Some(Conflict("checkout_url_invalid"))
      else None
    }

    method FinalizeCheckout(plan: Plan, hash: bytes, session: string, url: string, now: Time) returns (reply: Reply)
      modifies this
      ensures (Contents(), reply) == Finalize(check, old(Contents()), config, plan, hash, session, url, now)
    {
      if !check(url, session, config.mode) { return Refused(UnsafeUrl); }
      if plan.key !in reservations || reservations[plan.key].requestHash != hash {
        return Refused(Conflict("reservation_unavailable"));
      }
      var reservation := reservations[plan.key];
      if reservation.state == Completed { return Refused(InProgress); }
      if reservation.lease != plan.lease || reservation.leaseExpiresAt <= now { return Refused(InProgress); }
      if reservation.order !in orders { return Refused(Conflict("order_unavailable")); }
      var order := orders[reservation.order];
      if order.mode != config.mode { return Refused(Conflict("payment_mode_mismatch")); }
      if order.session !in {None, Some(session)} { return Refused(Conflict("session_conflict")); }
      if exists other :: other in orders && other != reservation.order && orders[other].session == Some(session) {
        return Refused(IntegrityError);
      }
      var ref := reservation.order;
      orders := orders[ref := order.(session := Some(session))];
      var raw := IssueToken(ref, false, now);
      reservation := reservation.(state := Completed);
      reservation := reservation.(body := Some(Body(ref, url, order.payment, order.fulfillment)),
        completedAt := Some(now));
      reservation := reservation.(leaseExpiresAt := now + config.grace);
      reservations := reservations[plan.key := reservation];
      reply := Answered(Output(ref, raw, url, order.payment, order.fulfillment));
    }

    method RotateStatusToken(ref: Ref, raw: nat, now: Time) returns (replacement: Option<nat>)
      modifies this
      ensures (Contents(), replacement) == Rotate(old(Contents()), config, ref, raw, now)
    {
      var rows := TokensOf(tokens, ref);
      if ref !in orders || !exists i :: 0 <= i < |rows| && Authenticates(rows[i], raw, now) { return None; }
      var issued := IssueToken(ref, true, now);
      replacement := Some(issued);
    }
  }

  lemma {:induction false} RevokingKeepsVersions(ts: seq<Token>, now: Time)
    ensures MaxVersion(RevokeAll(ts, now)) == MaxVersion(ts)
  {
    if ts != [] {
      RevokingKeepsVersions(ts[..|ts| - 1], now);
      assert RevokeAll(ts, now)[..|ts| - 1] == RevokeAll(ts[..|ts| - 1], now);
    }
  }
}
