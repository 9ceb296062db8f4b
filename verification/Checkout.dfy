/**
 Checkout idempotency: reservations with leases and a credential grace period, and the order's status tokens.

 An order is identified by its unique reference, a reservation by the hash of its idempotency key.  Lease ids and
 raw tokens are fresh random values, drawn here from counters.  Every function is one committed transaction, and a
 `Refused` is the error that rolls it back.
 */
module Checkout {
  import opened Prelude
  import opened Orders

  type Ref = string

  datatype Token = Token(version: nat, raw: nat, revokedAt: Option<Time>, expiresAt: Time)

  datatype Order = Order(
    mode: string, email: string, amount: int, currency: string, session: Option<string>,
    payment: Payment, fulfillment: Fulfillment)

  /** `response_body`: what every later answer repeats. */
  datatype Body = Body(order: Ref, url: string, payment: Payment, fulfillment: Fulfillment)

  datatype CheckoutState = InProcess | Completed

  datatype Reservation = Reservation(
    requestHash: bytes, order: Ref, priceId: string, successUrl: string, cancelUrl: string,
    state: CheckoutState, lease: nat, leaseExpiresAt: Time, body: Option<Body>, completedAt: Option<Time>)

  datatype Db = Db(
    reservations: map<bytes, Reservation>, orders: map<Ref, Order>, tokens: map<Ref, seq<Token>>,
    nextLease: nat, nextToken: nat)

  /** The settings a request runs under; `ttl` and `grace` are durations. */
  datatype Config = Config(
    mode: string, priceId: string, successUrl: string, cancelUrl: string, amount: int, currency: string,
    grace: Time, ttl: Time)

  /** What the provider is asked with; the provider's own idempotency key is the reservation's key. */
  datatype Plan = Plan(
    key: bytes, order: Ref, email: string, priceId: string, amount: int, currency: string,
    successUrl: string, cancelUrl: string, lease: nat)

  datatype Output = Output(order: Ref, token: nat, url: string, payment: Payment, fulfillment: Fulfillment)

  datatype Refusal = Conflict(code: string) | InProgress | UnsafeUrl | IntegrityError

  datatype Reply = Planned(plan: Plan) | Answered(output: Output) | Refused(why: Refusal)

  /** Whether a checkout URL is safe for a session under a payment mode. */
  type UrlCheck = (string, string, string) -> bool

  // ---------------------------------------------------------------- status tokens

  function TokensOf(tokens: map<Ref, seq<Token>>, ref: Ref): seq<Token> { if ref in tokens then tokens[ref] else [] }

  /** `max(version)`, or 0. */
  function MaxVersion(ts: seq<Token>): nat {
    if ts == [] then 0 else Max(MaxVersion(ts[..|ts| - 1]), ts[|ts| - 1].version)
  }

  function Revoked(t: Token, now: Time): Token { if t.revokedAt.None? then t.(revokedAt := Some(now)) else t }

  function RevokeAll(ts: seq<Token>, now: Time): (r: seq<Token>)
    ensures |r| == |ts| && forall i :: 0 <= i < |ts| ==> r[i] == Revoked(ts[i], now)
  {
    seq(|ts|, i requires 0 <= i < |ts| => Revoked(ts[i], now))
  }

  /** `issue_token`. */
  function Issue(ts: seq<Token>, revoke: bool, now: Time, ttl: Time, raw: nat): seq<Token> {
    (if revoke then RevokeAll(ts, now) else ts) + [Token(MaxVersion(ts) + 1, raw, None, now + ttl)]
  }

  function IssueFor(db: Db, ref: Ref, revoke: bool, now: Time, ttl: Time): Db {
    db.(tokens := db.tokens[ref := Issue(TokensOf(db.tokens, ref), revoke, now, ttl, db.nextToken)],
        nextToken := db.nextToken + 1)
  }

  // ---------------------------------------------------------------- the checkout transactions

  function PlanOf(key: bytes, r: Reservation, o: Order): Plan {
    Plan(key, r.order, o.email, r.priceId, o.amount, o.currency, r.successUrl, r.cancelUrl, r.lease)
  }

  /** `_reserve`: the key's first request creates order and reservation together; later ones resume. */
  function Reserve(check: UrlCheck, db: Db, c: Config, key: bytes, hash: bytes, email: string, ref: Ref,
                   now: Time): (Db, Reply) {
    if key in db.reservations then
      if db.reservations[key].requestHash != hash then (db, Refused(Conflict("key_bound_to_another_request")))
      else Resume(check, db, c, key, hash, now)
    else if ref in db.orders then (db, Refused(IntegrityError))
    else
      var o := Order(c.mode, email, c.amount, c.currency, None, CheckoutOpen, AwaitingPayment);
      var r := Reservation(hash, ref, c.priceId, c.successUrl, c.cancelUrl, InProcess, db.nextLease, now + c.grace,
        None, None);
      (db.(reservations := db.reservations[key := r], orders := db.orders[ref := o], nextLease := db.nextLease + 1),
       Planned(PlanOf(key, r, o)))
  }

  /** `_resume`: a new lease once the old one, or the grace period of the last answer, is over. */
  function Resume(check: UrlCheck, db: Db, c: Config, key: bytes, hash: bytes, now: Time): (Db, Reply)
    requires key in db.reservations
  {
    var r := db.reservations[key];
    if r.order !in db.orders then (db, Refused(Conflict("reserved_order_unavailable")))
    else if db.orders[r.order].mode != c.mode then (db, Refused(Conflict("payment_mode_mismatch")))
    else if r.leaseExpiresAt > now then (db, Refused(InProgress))
    else
      var leased := r.(lease := db.nextLease, leaseExpiresAt := now + c.grace);
      var db' := db.(reservations := db.reservations[key := leased], nextLease := db.nextLease + 1);
      if r.state == Completed then
        match Replay(check, db', c, leased, now)
        case Ok(answer) => answer
        case Err(e) => (db, Refused(e))
      else (db', Planned(PlanOf(key, leased, db.orders[r.order])))
  }

  /** `_replay`: the stored answer again, with a new token that revokes the old ones. */
  function Replay(check: UrlCheck, db: Db, c: Config, r: Reservation, now: Time): Result<(Db, Reply), Refusal> {
    if r.state != Completed || r.completedAt.None? || r.body.None? then Err(Conflict("request_incomplete"))
    else
      var body := r.body.value;
      if body.order !in db.orders || db.orders[body.order].session.None? then Err(Conflict("order_unavailable"))
      else if !check(body.url, db.orders[body.order].session.value, c.mode) then Err(Conflict("checkout_url_invalid"))
      else
        Ok((IssueFor(db, body.order, true, now, c.ttl),
            Answered(Output(body.order, db.nextToken, body.url, body.payment, body.fulfillment))))
  }

  ghost predicate SessionTaken(orders: map<Ref, Order>, ref: Ref, session: string) {
    exists other :: other in orders && other != ref && orders[other].session == Some(session)
  }

  /** The URL check after the provider answered, then `_finalize`. */
  ghost function Finalize(check: UrlCheck, db: Db, c: Config, plan: Plan, hash: bytes, session: string, url: string,
                          now: Time)
    : (Db, Reply)
  {
    if !check(url, session, c.mode) then (db, Refused(UnsafeUrl))
    else if plan.key !in db.reservations || db.reservations[plan.key].requestHash != hash then
      (db, Refused(Conflict("reservation_unavailable")))
    else
      var r := db.reservations[plan.key];
      if r.state == Completed then (db, Refused(InProgress))
      else if r.lease != plan.lease || r.leaseExpiresAt <= now then (db, Refused(InProgress))
      else if r.order !in db.orders then (db, Refused(Conflict("order_unavailable")))
      else if db.orders[r.order].mode != c.mode then (db, Refused(Conflict("payment_mode_mismatch")))
      else if db.orders[r.order].session !in {None, Some(session)} then (db, Refused(Conflict("session_conflict")))
      else if SessionTaken(db.orders, r.order, session) then (db, Refused(IntegrityError))
      else Complete(db, c, plan.key, session, url, now)
  }

  /** The writes of `_finalize`. */
  function Complete(db: Db, c: Config, key: bytes, session: string, url: string, now: Time): (Db, Reply)
    requires key in db.reservations && db.reservations[key].order in db.orders
  {
    var r := db.reservations[key];
    var o := db.orders[r.order];
    var issued := IssueFor(db, r.order, false, now, c.ttl);
    var body := Body(r.order, url, o.payment, o.fulfillment);
    var completed := r.(state := Completed, body := Some(body), completedAt := Some(now),
      leaseExpiresAt := now + c.grace);
    (issued.(orders := db.orders[r.order := o.(session := Some(session))],
             reservations := db.reservations[key := completed]),
     Answered(Output(r.order, db.nextToken, url, o.payment, o.fulfillment)))
  }

  predicate Authenticates(t: Token, raw: nat, now: Time) { t.raw == raw && t.revokedAt.None? && t.expiresAt > now }

  /** `rotate_token`: a live token buys a new one and dies. */
  function Rotate(db: Db, c: Config, ref: Ref, raw: nat, now: Time): (Db, Option<nat>) {
    var ts := TokensOf(db.tokens, ref);
    if ref in db.orders && exists i :: 0 <= i < |ts| && Authenticates(ts[i], raw, now)
    then (IssueFor(db, ref, true, now, c.ttl), Some(db.nextToken)) else (db, None)
  }

  // ---------------------------------------------------------------- runs

  /** A request in flight; its plan is kept after it ended. */
  datatype Attempt = Attempt(plan: Plan, hash: bytes)

  /** A successful answer, and whether the finalizing transaction gave it. */
  datatype Response = Response(key: bytes, output: Output, finalized: bool)

  datatype Sys = Sys(db: Db, attempts: map<nat, Attempt>, log: seq<Response>)

  datatype Step =
    | Begin(attempt: nat, config: Config, key: bytes, hash: bytes, email: string, ref: Ref, now: Time)
    | ProviderAnswers(attempt: nat, config: Config, session: string, url: string, now: Time)
    | RotateToken(config: Config, order: Ref, raw: nat, now: Time)
    | OrderMoves(order: Ref, payment: Payment, fulfillment: Fulfillment)

  ghost function Next(check: UrlCheck, s: Sys, step: Step): Sys {
    match step
    case Begin(id, c, key, hash, email, ref, now) =>
      if id in s.attempts then s
      else
        var (db, reply) := Reserve(check, s.db, c, key, hash, email, ref, now);
        (match reply
         case Planned(plan) => Sys(db, s.attempts[id := Attempt(plan, hash)], s.log)
         case Answered(output) => Sys(db, s.attempts, s.log + [Response(key, output, false)])
         case Refused(_) => s)
    case ProviderAnswers(id, c, session, url, now) =>
      if id !in s.attempts then s
      else
        var (db, reply) := Finalize(check, s.db, c, s.attempts[id].plan, s.attempts[id].hash, session, url, now);
        (match reply
         case Answered(output) => Sys(db, s.attempts, s.log + [Response(s.attempts[id].plan.key, output, true)])
         case _ => s)
    case RotateToken(c, ref, raw, now) => s.(db := Rotate(s.db, c, ref, raw, now).0)
    case OrderMoves(ref, p, f) =>
      // The Stripe webhook binds events by the stored session, so an order without one never moves.
      if ref !in s.db.orders || s.db.orders[ref].session.None? then s
      else s.(db := s.db.(orders := s.db.orders[ref := s.db.orders[ref].(payment := p, fulfillment := f)]))
  }

  ghost function Run(check: UrlCheck, s: Sys, steps: seq<Step>): Sys
    decreases |steps|
  {
    if steps == [] then s else Run(check, Next(check, s, steps[0]), steps[1..])
  }

  const Empty: Sys := Sys(Db(map[], map[], map[], 0, 0), map[], [])

  // ---------------------------------------------------------------- invariant

  /** Versions are 1, 2, ... and only the newest token can be live. */
  ghost predicate TokensInv(ts: seq<Token>, nextToken: nat) {
    && (forall i :: 0 <= i < |ts| ==> ts[i].version == i + 1 && ts[i].raw < nextToken)
    && (forall i :: 0 <= i < |ts| && ts[i].revokedAt.None? ==> i == |ts| - 1)
  }

  ghost predicate AllTokensInv(tokens: map<Ref, seq<Token>>, nextToken: nat) {
    forall ref {:trigger TokensInv(tokens[ref], nextToken)} :: ref in tokens ==> TokensInv(tokens[ref], nextToken)
  }

  /** An order without a session has not moved. */
  ghost predicate OrderInv(o: Order) {
    o.session.None? ==> o.payment == CheckoutOpen && o.fulfillment == AwaitingPayment
  }

  ghost predicate OrdersInv(orders: map<Ref, Order>) {
    forall ref {:trigger OrderInv(orders[ref])} :: ref in orders ==> OrderInv(orders[ref])
  }

  /** A reservation in progress has no session and no token; a completed one has its answer, valid for its session. */
  ghost predicate ReservationInv(check: UrlCheck, r: Reservation, orders: map<Ref, Order>, tokens: map<Ref, seq<Token>>,
                                 nextLease: nat) {
    && r.order in orders && r.lease < nextLease
    && (r.state == InProcess ==>
          r.body.None? && r.completedAt.None? && orders[r.order].session.None? && TokensOf(tokens, r.order) == [])
    && (r.state == Completed ==>
          && r.body.Some? && r.completedAt.Some? && orders[r.order].session.Some?
          && r.body.value.order == r.order
          && r.body.value.payment == CheckoutOpen && r.body.value.fulfillment == AwaitingPayment
          && check(r.body.value.url, orders[r.order].session.value, orders[r.order].mode))
  }

  ghost predicate ReservationsInv(check: UrlCheck, db: Db) {
    forall k {:trigger ReservationInv(check, db.reservations[k], db.orders, db.tokens, db.nextLease)} ::
      k in db.reservations ==> ReservationInv(check, db.reservations[k], db.orders, db.tokens, db.nextLease)
  }

  ghost predicate OrdersDistinct(reservations: map<bytes, Reservation>) {
    forall j, k :: (j in reservations && k in reservations && j != k) ==> reservations[j].order != reservations[k].order
  }

  ghost predicate DbInv(check: UrlCheck, db: Db) {
    && AllTokensInv(db.tokens, db.nextToken)
    && OrdersInv(db.orders)
    && ReservationsInv(check, db)
    && OrdersDistinct(db.reservations)
    && (forall ref :: ref in db.tokens ==> ref in db.orders)
  }

  /** Whatever the lease, the provider is asked the same question. */
  ghost predicate AttemptInv(a: Attempt, db: Db) {
    && a.plan.key in db.reservations
    && (var r := db.reservations[a.plan.key];
        && a.hash == r.requestHash && r.order in db.orders
        && a.plan == PlanOf(a.plan.key, r, db.orders[r.order]).(lease := a.plan.lease)
        && a.plan.lease <= r.lease)
  }

  ghost predicate AttemptsInv(attempts: map<nat, Attempt>, db: Db) {
    && (forall a {:trigger AttemptInv(attempts[a], db)} :: a in attempts ==> AttemptInv(attempts[a], db))
    && (forall a, b :: (a in attempts && b in attempts && a != b) ==> attempts[a].plan.lease != attempts[b].plan.lease)
  }

  /** A given answer is the reservation's body, with some token. */
  ghost predicate ResponseInv(e: Response, reservations: map<bytes, Reservation>) {
    && e.key in reservations && reservations[e.key].state == Completed
    && reservations[e.key].body
       == Some(Body(e.output.order, e.output.url, e.output.payment, e.output.fulfillment))
  }

  ghost predicate LogInv(log: seq<Response>, reservations: map<bytes, Reservation>) {
    && (forall i {:trigger ResponseInv(log[i], reservations)} :: 0 <= i < |log| ==> ResponseInv(log[i], reservations))
    && (forall i, j :: (0 <= i < j < |log| && log[i].finalized && log[j].finalized) ==> log[i].key != log[j].key)
  }

  ghost predicate Inv(check: UrlCheck, s: Sys) {
    DbInv(check, s.db) && AttemptsInv(s.attempts, s.db) && LogInv(s.log, s.db.reservations)
  }

  /** What is promised to a key stays. */
  ghost predicate ReservationKept(r: Reservation, r': Reservation) {
    && r'.requestHash == r.requestHash && r'.order == r.order && r'.priceId == r.priceId
    && r'.successUrl == r.successUrl && r'.cancelUrl == r.cancelUrl && r.lease <= r'.lease
    && (r.state == Completed ==> r'.state == Completed && r'.body == r.body && r'.completedAt == r.completedAt)
  }

  ghost predicate OrderKept(o: Order, o': Order) {
    && o'.mode == o.mode && o'.email == o.email && o'.amount == o.amount && o'.currency == o.currency
    && (o.session.Some? ==> o'.session == o.session)
  }

  ghost predicate Extends(db: Db, db': Db) {
    && db.reservations.Keys <= db'.reservations.Keys && db.orders.Keys <= db'.orders.Keys
    && db.nextLease <= db'.nextLease && db.nextToken <= db'.nextToken
    && (forall k {:trigger db'.reservations[k]} :: k in db.reservations ==>
          ReservationKept(db.reservations[k], db'.reservations[k]))
    && (forall ref {:trigger db'.orders[ref]} :: ref in db.orders ==> OrderKept(db.orders[ref], db'.orders[ref]))
  }
}
