/** When each checkout transaction succeeds, and what it then answers and stores. */
module CheckoutOutcomes {
  import opened Prelude
  import opened Orders
  import opened Checkout
  import opened CheckoutProperties

  // ---------------------------------------------------------------- tokens

  /** The order's tokens once a new one replaced the live one, if any. */
  function Replaced(ts: seq<Token>, raw: nat, now: Time, ttl: Time): (r: seq<Token>)
    ensures |r| == |ts| + 1
    ensures forall i :: 0 <= i < |ts| ==>
              r[i] == if ts[i].revokedAt.None? then ts[i].(revokedAt := Some(now)) else ts[i]
  {
    seq(|ts|, i requires 0 <= i < |ts| =>
                if ts[i].revokedAt.None? then ts[i].(revokedAt := Some(now)) else ts[i])
    + [Token(|ts| + 1, raw, None, now + ttl)]
  }

  /** Some token of the order is this one, unrevoked and not over. */
  predicate Opens(ts: seq<Token>, raw: nat, t: Time) {
    exists i :: 0 <= i < |ts| && ts[i].raw == raw && ts[i].revokedAt.None? && t < ts[i].expiresAt
  }

  /** Only this raw token opens the order's status, and it does until its time is over. */
  ghost predicate OnlyToken(db: Db, ref: Ref, raw: nat, until: Time) {
    forall other: nat, t: Time :: Opens(TokensOf(db.tokens, ref), other, t) <==> other == raw && t < until
  }

  lemma IssuesReplaced(ts: seq<Token>, raw: nat, now: Time, ttl: Time)
    requires TokensInv(ts, raw)
    ensures Issue(ts, true, now, ttl, raw) == Replaced(ts, raw, now, ttl)
    ensures ts == [] ==> Issue(ts, false, now, ttl, raw) == Replaced(ts, raw, now, ttl)
  {
    MaxVersionIsLength(ts);
  }

  lemma ReplacedIsOnly(db: Db, ref: Ref, ts: seq<Token>, raw: nat, now: Time, ttl: Time)
    requires TokensOf(db.tokens, ref) == Replaced(ts, raw, now, ttl)
    ensures OnlyToken(db, ref, raw, now + ttl)
  {
    var all := TokensOf(db.tokens, ref);
    forall other: nat, t: Time ensures Opens(all, other, t) <==> other == raw && t < now + ttl {
      assert all[|ts|] == Token(|ts| + 1, raw, None, now + ttl);
    }
  }

  // ---------------------------------------------------------------- finalizing

  /** No other order carries the session. */
  ghost predicate SessionFree(db: Db, ref: Ref, session: string) {
    forall other :: other in db.orders && db.orders[other].session == Some(session) ==> other == ref
  }

  /** The plan is the newest of its key, and its lease still runs. */
  predicate UnderLease(db: Db, plan: Plan, now: Time)
    requires plan.key in db.reservations
  {
    var r := db.reservations[plan.key];
    r.state == InProcess && r.lease == plan.lease && now < r.leaseExpiresAt
  }

  /** The tables once the plan's checkout is completed. */
  function Finalized(db: Db, c: Config, plan: Plan, session: string, url: string, now: Time): Db
    requires plan.key in db.reservations && plan.order in db.orders
  {
    db.(reservations := db.reservations[plan.key := db.reservations[plan.key].(
          state := Completed, leaseExpiresAt := now + c.grace, completedAt := Some(now),
          body := Some(Body(plan.order, url, CheckoutOpen, AwaitingPayment)))],
        orders := db.orders[plan.order := db.orders[plan.order].(session := Some(session))],
        tokens := db.tokens[plan.order := [Token(1, db.nextToken, None, now + c.ttl)]],
        nextToken := db.nextToken + 1)
  }

  /**
   How a finalize ends for a plan that was handed out.  It is refused, and nothing changes, for an unsafe URL, a lease
   that is not the newest or has run out, another payment mode, or a session some other order carries.  Otherwise it
   answers the plan's order with this URL and the order's first token, and stores session and answer.
   */
  ghost predicate FinalizeOutcome(check: UrlCheck, db: Db, c: Config, plan: Plan, session: string, url: string,
                                  now: Time, db': Db, reply: Reply)
    requires plan.key in db.reservations && plan.order in db.orders
  {
    if !check(url, session, c.mode) then db' == db && reply == Refused(UnsafeUrl)
    else if !UnderLease(db, plan, now) then db' == db && reply == Refused(InProgress)
    else if db.orders[plan.order].mode != c.mode then db' == db && reply == Refused(Conflict("payment_mode_mismatch"))
    else if !SessionFree(db, plan.order, session) then db' == db && reply == Refused(IntegrityError)
    else
      && db' == Finalized(db, c, plan, session, url, now)
      && reply == Answered(Output(plan.order, db.nextToken, url, CheckoutOpen, AwaitingPayment))
      && OnlyToken(db', plan.order, db.nextToken, now + c.ttl)
  }

  lemma FinalizesExactly(check: UrlCheck, s: Sys, id: nat, c: Config, session: string, url: string, now: Time)
    requires Inv(check, s) && id in s.attempts
    ensures var plan := s.attempts[id].plan;
            var (db', reply) := Finalize(check, s.db, c, plan, s.attempts[id].hash, session, url, now);
            && plan.key in s.db.reservations && plan.order in s.db.orders
            && FinalizeOutcome(check, s.db, c, plan, session, url, now, db', reply)
  {
    var a, db := s.attempts[id], s.db;
    assert AttemptInv(a, db);
    assert ReservationInv(check, db.reservations[a.plan.key], db.orders, db.tokens, db.nextLease);
    assert OrderInv(db.orders[a.plan.order]);
    if UnderLease(db, a.plan, now) { CompletesAs(check, db, c, a.plan, session, url, now); }
  }

  lemma CompletesAs(check: UrlCheck, db: Db, c: Config, plan: Plan, session: string, url: string, now: Time)
    requires DbInv(check, db) && plan.key in db.reservations && plan.order in db.orders
    requires db.reservations[plan.key].order == plan.order && db.reservations[plan.key].state == InProcess
    ensures Complete(db, c, plan.key, session, url, now)
         == (Finalized(db, c, plan, session, url, now),
             Answered(Output(plan.order, db.nextToken, url, CheckoutOpen, AwaitingPayment)))
    ensures OnlyToken(Finalized(db, c, plan, session, url, now), plan.order, db.nextToken, now + c.ttl)
  {
    assert ReservationInv(check, db.reservations[plan.key], db.orders, db.tokens, db.nextLease);
    assert OrderInv(db.orders[plan.order]);
    var none: seq<Token> := [];
    IssuesReplaced(none, db.nextToken, now, c.ttl);
    assert Replaced(none, db.nextToken, now, c.ttl) == [Token(1, db.nextToken, None, now + c.ttl)];
    ReplacedIsOnly(Finalized(db, c, plan, session, url, now), plan.order, none, db.nextToken, now, c.ttl);
  }

  // ---------------------------------------------------------------- reserving and resuming

  /** The plan a reservation gives under a lease. */
  function PlanFor(db: Db, key: bytes, lease: nat): Plan
    requires key in db.reservations && db.reservations[key].order in db.orders
  {
    var r := db.reservations[key];
    var o := db.orders[r.order];
    Plan(key, r.order, o.email, r.priceId, o.amount, o.currency, r.successUrl, r.cancelUrl, lease)
  }

  /** The tables with the key's next lease, which protects it for the grace period. */
  function NextLease(db: Db, c: Config, key: bytes, now: Time): Db
    requires key in db.reservations
  {
    db.(reservations :=
          db.reservations[key := db.reservations[key].(lease := db.nextLease, leaseExpiresAt := now + c.grace)],
        nextLease := db.nextLease + 1)
  }

  /** The tables with the key's next lease and a new token in place of the order's live one. */
  function Reissued(db: Db, c: Config, key: bytes, now: Time): Db
    requires key in db.reservations
  {
    var ref := db.reservations[key].order;
    NextLease(db, c, key, now).(
      tokens := db.tokens[ref := Replaced(TokensOf(db.tokens, ref), db.nextToken, now, c.ttl)],
      nextToken := db.nextToken + 1)
  }

  /**
   How a request ends.  A new key reserves the order it is given, which must be new too.  A known key is refused for
   another request, another payment mode, or while a lease or the grace period runs; an unfinished checkout then gets
   the same plan under the next lease, and a completed one its stored answer with a new token.
   */
  ghost predicate ReserveOutcome(db: Db, c: Config, key: bytes, hash: bytes, email: string, ref: Ref, now: Time,
                                 db': Db, reply: Reply)
  {
    if key !in db.reservations then
      if ref in db.orders then db' == db && reply == Refused(IntegrityError)
      else
        && db' == db.(
           reservations := db.reservations[key := Reservation(hash, ref, c.priceId, c.successUrl, c.cancelUrl,
                                                              InProcess, db.nextLease, now + c.grace, None, None)],
           orders := db.orders[ref := Order(c.mode, email, c.amount, c.currency, None, CheckoutOpen, AwaitingPayment)],
           nextLease := db.nextLease + 1)
        && reply == Planned(Plan(key, ref, email, c.priceId, c.amount, c.currency, c.successUrl, c.cancelUrl,
                                 db.nextLease))
    else
      var r := db.reservations[key];
      if r.requestHash != hash then db' == db && reply == Refused(Conflict("key_bound_to_another_request"))
      else if r.order !in db.orders then false
      else if db.orders[r.order].mode != c.mode then db' == db && reply == Refused(Conflict("payment_mode_mismatch"))
      else if now < r.leaseExpiresAt then db' == db && reply == Refused(InProgress)
      else if r.state == InProcess then
        db' == NextLease(db, c, key, now) && reply == Planned(PlanFor(db, key, db.nextLease))
      else
        && db' == Reissued(db, c, key, now) && r.body.Some?
        && reply == Answered(Output(r.order, db.nextToken, r.body.value.url, CheckoutOpen, AwaitingPayment))
        && OnlyToken(db', r.order, db.nextToken, now + c.ttl)
  }

  lemma ReservesExactly(check: UrlCheck, db: Db, c: Config, key: bytes, hash: bytes, email: string, ref: Ref, now: Time)
    requires DbInv(check, db)
    ensures var (db', reply) := Reserve(check, db, c, key, hash, email, ref, now);
            ReserveOutcome(db, c, key, hash, email, ref, now, db', reply)
  {
    if key in db.reservations {
      var r := db.reservations[key];
      assert ReservationInv(check, r, db.orders, db.tokens, db.nextLease);
      var resumes := && r.requestHash == hash && db.orders[r.order].mode == c.mode && r.leaseExpiresAt <= now
                     && r.state == Completed;
      if resumes { ReplaysAs(check, db, c, key, hash, now); }
    }
  }

  lemma ReplaysAs(check: UrlCheck, db: Db, c: Config, key: bytes, hash: bytes, now: Time)
    requires DbInv(check, db) && key in db.reservations && db.reservations[key].state == Completed
    requires db.reservations[key].order in db.orders && db.orders[db.reservations[key].order].mode == c.mode
    requires db.reservations[key].leaseExpiresAt <= now
    ensures var r := db.reservations[key];
            && r.body.Some?
            && Resume(check, db, c, key, hash, now)
               == (Reissued(db, c, key, now),
                   Answered(Output(r.order, db.nextToken, r.body.value.url, CheckoutOpen, AwaitingPayment)))
            && OnlyToken(Reissued(db, c, key, now), r.order, db.nextToken, now + c.ttl)
  {
    var r := db.reservations[key];
    assert ReservationInv(check, r, db.orders, db.tokens, db.nextLease);
    var ts := TokensOf(db.tokens, r.order);
    assert r.order in db.tokens ==> TokensInv(db.tokens[r.order], db.nextToken);
    IssuesReplaced(ts, db.nextToken, now, c.ttl);
    ReplacedIsOnly(Reissued(db, c, key, now), r.order, ts, db.nextToken, now, c.ttl);
  }

  // ---------------------------------------------------------------- rotating

  /**
   A rotation succeeds exactly for a known order and its live token, before its time is over; the new token then is the
   only one.
   */
  lemma RotatesExactly(check: UrlCheck, db: Db, c: Config, ref: Ref, raw: nat, now: Time)
    requires DbInv(check, db)
    ensures var ts := TokensOf(db.tokens, ref);
            var (db', replacement) := Rotate(db, c, ref, raw, now);
            if ref in db.orders && ts != [] && (var t := ts[|ts| - 1];
                                                t.raw == raw && t.revokedAt.None? && now < t.expiresAt)
            then
              && replacement == Some(db.nextToken)
              && db' == db.(tokens := db.tokens[ref := Replaced(ts, db.nextToken, now, c.ttl)],
                            nextToken := db.nextToken + 1)
              && OnlyToken(db', ref, db.nextToken, now + c.ttl)
            else replacement == None && db' == db
  {
    var ts := TokensOf(db.tokens, ref);
    assert ref in db.tokens ==> TokensInv(db.tokens[ref], db.nextToken);
    IssuesReplaced(ts, db.nextToken, now, c.ttl);
    if Rotate(db, c, ref, raw, now).1.Some? {
      ReplacedIsOnly(Rotate(db, c, ref, raw, now).0, ref, ts, db.nextToken, now, c.ttl);
    }
  }

  // ---------------------------------------------------------------- a checkout that completes

  /** From every good state, a new key with a new order and a free session gets its answer. */
  lemma FirstCheckout(check: UrlCheck, s: Sys, id: nat, c: Config, key: bytes, hash: bytes, email: string, ref: Ref,
                      now: Time, session: string, url: string, later: Time)
    requires Inv(check, s) && id !in s.attempts && key !in s.db.reservations && ref !in s.db.orders
    requires SessionFree(s.db, ref, session) && check(url, session, c.mode) && later < now + c.grace
    ensures var s1 := Next(check, s, Begin(id, c, key, hash, email, ref, now));
            var s2 := Next(check, s1, ProviderAnswers(id, c, session, url, later));
            && s2.log == s.log + [Response(key, Output(ref, s.db.nextToken, url, CheckoutOpen, AwaitingPayment), true)]
            && OnlyToken(s2.db, ref, s.db.nextToken, later + c.ttl)
            && ref in s2.db.orders && s2.db.orders[ref].session == Some(session)
  {
    var begin := Begin(id, c, key, hash, email, ref, now);
    ReservesExactly(check, s.db, c, key, hash, email, ref, now);
    NextKeeps(check, s, begin);
    var s1 := Next(check, s, begin);
    assert id in s1.attempts && UnderLease(s1.db, s1.attempts[id].plan, later);
    FinalizesExactly(check, s1, id, c, session, url, later);
  }

  /** So a run from the empty tables answers the first customer. */
  lemma FirstCustomer(check: UrlCheck, c: Config, key: bytes, hash: bytes, email: string, ref: Ref, now: Time,
                      session: string, url: string, later: Time) returns (steps: seq<Step>)
    requires check(url, session, c.mode) && later < now + c.grace
    ensures Run(check, Empty, steps).log
         == [Response(key, Output(ref, 0, url, CheckoutOpen, AwaitingPayment), true)]
  {
    var first, second := Begin(0, c, key, hash, email, ref, now), ProviderAnswers(0, c, session, url, later);
    steps := [first, second];
    FirstCheckout(check, Empty, 0, c, key, hash, email, ref, now, session, url, later);
    var s1 := Next(check, Empty, first);
    var s2 := Next(check, s1, second);
    assert steps[1..] == [second] && [second][1..] == [];
    assert Run(check, s2, []) == s2;
    assert Run(check, s1, [second]) == s2;
    assert Run(check, Empty, steps) == s2;
  }
}
