/** Checkout idempotency over every interleaving of requests, provider answers, replays and rotations. */
module CheckoutProperties {
  import opened Prelude
  import opened Orders
  import opened Checkout

  // ---------------------------------------------------------------- tokens

  lemma {:induction false} MaxVersionIsLength(ts: seq<Token>)
    requires forall i :: 0 <= i < |ts| ==> ts[i].version == i + 1
    ensures MaxVersion(ts) == |ts|
  {
    if ts != [] {
      MaxVersionIsLength(ts[..|ts| - 1]);
      assert ts[|ts| - 1].version == |ts|;
    }
  }

  /** A token may be issued without revoking only when there is none. */
  lemma IssueKeeps(ts: seq<Token>, revoke: bool, now: Time, ttl: Time, raw: nat)
    requires TokensInv(ts, raw) && (revoke || ts == [])
    ensures var ts' := Issue(ts, revoke, now, ttl, raw);
            && TokensInv(ts', raw + 1) && |ts'| == |ts| + 1
            && ts'[|ts|] == Token(|ts| + 1, raw, None, now + ttl)
  {
    MaxVersionIsLength(ts);
  }

  lemma IssueForKeeps(check: UrlCheck, db: Db, ref: Ref, revoke: bool, now: Time, ttl: Time)
    requires AllTokensInv(db.tokens, db.nextToken) && (revoke || TokensOf(db.tokens, ref) == [])
    ensures var db' := IssueFor(db, ref, revoke, now, ttl);
            && AllTokensInv(db'.tokens, db'.nextToken) && db'.tokens.Keys == db.tokens.Keys + {ref}
            && TokensOf(db'.tokens, ref) != []
            && (forall other :: other != ref ==> TokensOf(db'.tokens, other) == TokensOf(db.tokens, other))
  {
    var db' := IssueFor(db, ref, revoke, now, ttl);
    assert ref in db.tokens ==> TokensInv(db.tokens[ref], db.nextToken);
    IssueKeeps(TokensOf(db.tokens, ref), revoke, now, ttl, db.nextToken);
    forall r | r in db'.tokens ensures TokensInv(db'.tokens[r], db'.nextToken) {
      if r != ref { assert TokensInv(db.tokens[r], db.nextToken); }
    }
  }

  // ---------------------------------------------------------------- one reservation changes

  /** The other reservations do not notice, because they belong to other orders. */
  lemma OthersSurvive(check: UrlCheck, db: Db, key: bytes, db': Db)
    requires ReservationsInv(check, db) && OrdersDistinct(db.reservations) && key in db.reservations
    requires db'.reservations.Keys == db.reservations.Keys && db.nextLease <= db'.nextLease
    requires forall k :: k in db.reservations && k != key ==> db'.reservations[k] == db.reservations[k]
    requires db.orders.Keys <= db'.orders.Keys
    requires forall ref :: ref in db.orders && ref != db.reservations[key].order ==>
               db'.orders[ref] == db.orders[ref] && TokensOf(db'.tokens, ref) == TokensOf(db.tokens, ref)
    requires ReservationInv(check, db'.reservations[key], db'.orders, db'.tokens, db'.nextLease)
    requires db'.reservations[key].order == db.reservations[key].order
    ensures ReservationsInv(check, db') && OrdersDistinct(db'.reservations)
  {
    forall k | k in db'.reservations
      ensures ReservationInv(check, db'.reservations[k], db'.orders, db'.tokens, db'.nextLease)
    {
      if k != key { assert ReservationInv(check, db.reservations[k], db.orders, db.tokens, db.nextLease); }
    }
  }

  /** The first request of a key. */
  lemma NewKeyKeeps(check: UrlCheck, db: Db, key: bytes, r: Reservation, o: Order)
    requires DbInv(check, db) && key !in db.reservations && r.order !in db.orders
    requires r.state == InProcess && r.body.None? && r.completedAt.None? && r.lease == db.nextLease
    requires o.session.None? && o.payment == CheckoutOpen && o.fulfillment == AwaitingPayment
    ensures var db' := db.(reservations := db.reservations[key := r], orders := db.orders[r.order := o],
                           nextLease := db.nextLease + 1);
            DbInv(check, db') && Extends(db, db')
  {
    var db' := db.(reservations := db.reservations[key := r], orders := db.orders[r.order := o],
      nextLease := db.nextLease + 1);
    forall k | k in db'.reservations
      ensures ReservationInv(check, db'.reservations[k], db'.orders, db'.tokens, db'.nextLease)
      ensures k != key ==> db'.reservations[k].order != r.order
    {
      if k != key { assert ReservationInv(check, db.reservations[k], db.orders, db.tokens, db.nextLease); }
    }
    forall ref | ref in db'.orders ensures OrderInv(db'.orders[ref]) {
      if ref != r.order { assert OrderInv(db.orders[ref]); }
    }
  }

  function Leased(db: Db, c: Config, key: bytes, now: Time): Db
    requires key in db.reservations
  {
    var r := db.reservations[key].(lease := db.nextLease, leaseExpiresAt := now + c.grace);
    db.(reservations := db.reservations[key := r], nextLease := db.nextLease + 1)
  }

  lemma LeasedKeeps(check: UrlCheck, db: Db, c: Config, key: bytes, now: Time)
    requires DbInv(check, db) && key in db.reservations
    ensures var db' := Leased(db, c, key, now); DbInv(check, db') && Extends(db, db')
  {
    assert ReservationInv(check, db.reservations[key], db.orders, db.tokens, db.nextLease);
    OthersSurvive(check, db, key, Leased(db, c, key, now));
  }

  /** A new token for the order of a completed reservation. */
  lemma ReissueKeeps(check: UrlCheck, db: Db, key: bytes, now: Time, ttl: Time)
    requires DbInv(check, db) && key in db.reservations && db.reservations[key].state == Completed
    ensures var db' := IssueFor(db, db.reservations[key].order, true, now, ttl); DbInv(check, db') && Extends(db, db')
  {
    var ref := db.reservations[key].order;
    assert ReservationInv(check, db.reservations[key], db.orders, db.tokens, db.nextLease);
    IssueForKeeps(check, db, ref, true, now, ttl);
    OthersSurvive(check, db, key, IssueFor(db, ref, true, now, ttl));
  }

  lemma CompleteKeeps(check: UrlCheck, db: Db, c: Config, key: bytes, session: string, url: string, now: Time)
    requires DbInv(check, db) && key in db.reservations && db.reservations[key].state == InProcess
    requires db.reservations[key].order in db.orders
    requires check(url, session, db.orders[db.reservations[key].order].mode)
    ensures var db' := Complete(db, c, key, session, url, now).0;
            && DbInv(check, db') && Extends(db, db')
            && db'.reservations[key].state == Completed
            && db'.reservations[key].body == Some(Body(db.reservations[key].order, url, CheckoutOpen, AwaitingPayment))
  {
    var ref := db.reservations[key].order;
    var db' := Complete(db, c, key, session, url, now).0;
    assert ReservationInv(check, db.reservations[key], db.orders, db.tokens, db.nextLease);
    assert OrderInv(db.orders[ref]);
    IssueForKeeps(check, db, ref, false, now, c.ttl);
    assert db'.tokens == IssueFor(db, ref, false, now, c.ttl).tokens;
    OthersSurvive(check, db, key, db');
    forall r | r in db'.orders ensures OrderInv(db'.orders[r]) {
      if r != ref { assert OrderInv(db.orders[r]); }
    }
  }

  // ---------------------------------------------------------------- each transaction

  lemma ExtendsRefl(db: Db)
    ensures Extends(db, db)
  {
  }

  lemma ExtendsTrans(a: Db, b: Db, c: Db)
    requires Extends(a, b) && Extends(b, c)
    ensures Extends(a, c)
  {
    forall k | k in a.reservations ensures ReservationKept(a.reservations[k], c.reservations[k]) {
      assert ReservationKept(a.reservations[k], b.reservations[k]);
    }
    forall ref | ref in a.orders ensures OrderKept(a.orders[ref], c.orders[ref]) {
      assert OrderKept(a.orders[ref], b.orders[ref]);
    }
  }

  /** A plan reads the reservation it was given for; an answer repeats the stored body. */
  ghost predicate ReplyFits(db: Db, key: bytes, hash: bytes, db': Db, reply: Reply) {
    match reply
    case Planned(plan) =>
      && plan.key == key && plan.lease == db.nextLease && db'.nextLease == db.nextLease + 1
      && AttemptInv(Attempt(plan, hash), db')
    case Answered(output) => ResponseInv(Response(key, output, false), db'.reservations)
    case Refused(_) => db' == db
  }

  lemma ResumeKeeps(check: UrlCheck, db: Db, c: Config, key: bytes, hash: bytes, now: Time)
    requires DbInv(check, db) && key in db.reservations && db.reservations[key].requestHash == hash
    ensures var (db', reply) := Resume(check, db, c, key, hash, now);
            DbInv(check, db') && Extends(db, db') && ReplyFits(db, key, hash, db', reply)
  {
    ExtendsRefl(db);
    var r := db.reservations[key];
    assert ReservationInv(check, r, db.orders, db.tokens, db.nextLease);
    if db.orders[r.order].mode != c.mode || r.leaseExpiresAt > now { return; }
    var leased := Leased(db, c, key, now);
    LeasedKeeps(check, db, c, key, now);
    if r.state == Completed {
      ReissueKeeps(check, leased, key, now, c.ttl);
      ExtendsTrans(db, leased, IssueFor(leased, r.order, true, now, c.ttl));
      assert Replay(check, leased, c, leased.reservations[key], now)
          == Ok((IssueFor(leased, r.order, true, now, c.ttl),
                 Answered(Output(r.order, leased.nextToken, r.body.value.url, r.body.value.payment,
                   r.body.value.fulfillment))));
    }
  }

  lemma ReserveKeeps(check: UrlCheck, db: Db, c: Config, key: bytes, hash: bytes, email: string, ref: Ref, now: Time)
    requires DbInv(check, db)
    ensures var (db', reply) := Reserve(check, db, c, key, hash, email, ref, now);
            DbInv(check, db') && Extends(db, db') && ReplyFits(db, key, hash, db', reply)
  {
    ExtendsRefl(db);
    if key in db.reservations {
      if db.reservations[key].requestHash == hash { ResumeKeeps(check, db, c, key, hash, now); }
    } else if ref !in db.orders {
      var o := Order(c.mode, email, c.amount, c.currency, None, CheckoutOpen, AwaitingPayment);
      var r := Reservation(hash, ref, c.priceId, c.successUrl, c.cancelUrl, InProcess, db.nextLease, now + c.grace,
        None, None);
      NewKeyKeeps(check, db, key, r, o);
    }
  }

  lemma FinalizeKeeps(check: UrlCheck, db: Db, c: Config, plan: Plan, hash: bytes, session: string, url: string,
                      now: Time)
    requires DbInv(check, db)
    ensures var (db', reply) := Finalize(check, db, c, plan, hash, session, url, now);
            && DbInv(check, db') && Extends(db, db')
            && (reply.Answered? || (reply.Refused? && db' == db))
            && (reply.Answered? ==>
                  && plan.key in db.reservations && db.reservations[plan.key].state == InProcess
                  && ResponseInv(Response(plan.key, reply.output, true), db'.reservations))
  {
    ExtendsRefl(db);
    var (db', reply) := Finalize(check, db, c, plan, hash, session, url, now);
    if reply.Answered? {
      assert ReservationInv(check, db.reservations[plan.key], db.orders, db.tokens, db.nextLease);
      assert OrderInv(db.orders[db.reservations[plan.key].order]);
      CompleteKeeps(check, db, c, plan.key, session, url, now);
    }
  }

  lemma RotateKeeps(check: UrlCheck, db: Db, c: Config, ref: Ref, raw: nat, now: Time)
    requires DbInv(check, db)
    ensures var db' := Rotate(db, c, ref, raw, now).0; DbInv(check, db') && Extends(db, db')
  {
    ExtendsRefl(db);
    if Rotate(db, c, ref, raw, now).1.Some? {
      IssueForKeeps(check, db, ref, true, now, c.ttl);
      var db' := IssueFor(db, ref, true, now, c.ttl);
      forall k | k in db'.reservations
        ensures ReservationInv(check, db'.reservations[k], db'.orders, db'.tokens, db'.nextLease)
      {
        assert ReservationInv(check, db.reservations[k], db.orders, db.tokens, db.nextLease);
      }
    }
  }

  lemma MoveKeeps(check: UrlCheck, db: Db, ref: Ref, p: Payment, f: Fulfillment)
    requires DbInv(check, db) && ref in db.orders && db.orders[ref].session.Some?
    ensures var db' := db.(orders := db.orders[ref := db.orders[ref].(payment := p, fulfillment := f)]);
            DbInv(check, db') && Extends(db, db')
  {
    var db' := db.(orders := db.orders[ref := db.orders[ref].(payment := p, fulfillment := f)]);
    forall k | k in db'.reservations
      ensures ReservationInv(check, db'.reservations[k], db'.orders, db'.tokens, db'.nextLease)
    {
      assert ReservationInv(check, db.reservations[k], db.orders, db.tokens, db.nextLease);
    }
    forall r | r in db'.orders ensures OrderInv(db'.orders[r]) {
      if r != ref { assert OrderInv(db.orders[r]); }
    }
  }

  // ---------------------------------------------------------------- every run

  lemma AttemptSurvives(a: Attempt, db: Db, db': Db)
    requires AttemptInv(a, db) && Extends(db, db')
    ensures AttemptInv(a, db')
  {
    assert ReservationKept(db.reservations[a.plan.key], db'.reservations[a.plan.key]);
    assert OrderKept(db.orders[a.plan.order], db'.orders[a.plan.order]);
  }

  lemma AttemptsSurvive(attempts: map<nat, Attempt>, db: Db, db': Db)
    requires AttemptsInv(attempts, db) && Extends(db, db')
    ensures AttemptsInv(attempts, db')
  {
    forall a | a in attempts ensures AttemptInv(attempts[a], db') {
      assert AttemptInv(attempts[a], db);
      AttemptSurvives(attempts[a], db, db');
    }
  }

  lemma LogSurvives(log: seq<Response>, db: Db, db': Db)
    requires LogInv(log, db.reservations) && Extends(db, db')
    ensures LogInv(log, db'.reservations)
  {
    forall i | 0 <= i < |log| ensures ResponseInv(log[i], db'.reservations) {
      assert ResponseInv(log[i], db.reservations);
      assert ReservationKept(db.reservations[log[i].key], db'.reservations[log[i].key]);
    }
  }

  lemma LogGrows(log: seq<Response>, e: Response, reservations: map<bytes, Reservation>)
    requires LogInv(log, reservations) && ResponseInv(e, reservations)
    requires e.finalized ==> forall i :: 0 <= i < |log| && log[i].finalized ==> log[i].key != e.key
    ensures LogInv(log + [e], reservations)
  {
    forall i | 0 <= i < |log + [e]| ensures ResponseInv((log + [e])[i], reservations) {
      if i < |log| { assert ResponseInv(log[i], reservations); }
    }
  }

  /** A plan's lease is fresh, so no two attempts share one. */
  lemma AttemptAdded(check: UrlCheck, attempts: map<nat, Attempt>, db: Db, id: nat, a: Attempt, db': Db)
    requires AttemptsInv(attempts, db) && ReservationsInv(check, db) && Extends(db, db')
    requires id !in attempts && AttemptInv(a, db') && a.plan.lease == db.nextLease
    ensures AttemptsInv(attempts[id := a], db')
  {
    AttemptsSurvive(attempts, db, db');
    var attempts' := attempts[id := a];
    forall b | b in attempts' ensures AttemptInv(attempts'[b], db') {
      if b != id { assert AttemptInv(attempts[b], db'); }
    }
    forall b | b in attempts ensures attempts[b].plan.lease < db.nextLease {
      assert AttemptInv(attempts[b], db);
      var k := attempts[b].plan.key;
      assert ReservationInv(check, db.reservations[k], db.orders, db.tokens, db.nextLease);
    }
  }

  lemma BeginKeeps(check: UrlCheck, s: Sys, id: nat, c: Config, key: bytes, hash: bytes, email: string, ref: Ref,
                   now: Time)
    requires Inv(check, s)
    ensures var s' := Next(check, s, Begin(id, c, key, hash, email, ref, now)); Inv(check, s') && Extends(s.db, s'.db)
  {
    ExtendsRefl(s.db);
    if id in s.attempts { return; }
    var (db, reply) := Reserve(check, s.db, c, key, hash, email, ref, now);
    ReserveKeeps(check, s.db, c, key, hash, email, ref, now);
    LogSurvives(s.log, s.db, db);
    match reply
    case Planned(plan) => AttemptAdded(check, s.attempts, s.db, id, Attempt(plan, hash), db);
    case Answered(output) =>
      AttemptsSurvive(s.attempts, s.db, db);
      LogGrows(s.log, Response(key, output, false), db.reservations);
    case Refused(_) =>
  }

  lemma AnswerKeeps(check: UrlCheck, s: Sys, id: nat, c: Config, session: string, url: string, now: Time)
    requires Inv(check, s)
    ensures var s' := Next(check, s, ProviderAnswers(id, c, session, url, now)); Inv(check, s') && Extends(s.db, s'.db)
  {
    ExtendsRefl(s.db);
    if id !in s.attempts { return; }
    var a := s.attempts[id];
    var (db, reply) := Finalize(check, s.db, c, a.plan, a.hash, session, url, now);
    FinalizeKeeps(check, s.db, c, a.plan, a.hash, session, url, now);
    if reply.Answered? {
      AttemptsSurvive(s.attempts, s.db, db);
      LogSurvives(s.log, s.db, db);
      forall i | 0 <= i < |s.log| ensures s.log[i].key != a.plan.key {
        assert ResponseInv(s.log[i], s.db.reservations);
      }
      LogGrows(s.log, Response(a.plan.key, reply.output, true), db.reservations);
    }
  }

  lemma NextKeeps(check: UrlCheck, s: Sys, step: Step)
    requires Inv(check, s)
    ensures Inv(check, Next(check, s, step)) && Extends(s.db, Next(check, s, step).db)
  {
    ExtendsRefl(s.db);
    match step
    case Begin(id, c, key, hash, email, ref, now) => BeginKeeps(check, s, id, c, key, hash, email, ref, now);
    case ProviderAnswers(id, c, session, url, now) => AnswerKeeps(check, s, id, c, session, url, now);
    case RotateToken(c, ref, raw, now) =>
      RotateKeeps(check, s.db, c, ref, raw, now);
      AttemptsSurvive(s.attempts, s.db, Next(check, s, step).db);
      LogSurvives(s.log, s.db, Next(check, s, step).db);
    case OrderMoves(ref, p, f) =>
      if ref in s.db.orders && s.db.orders[ref].session.Some? {
        MoveKeeps(check, s.db, ref, p, f);
        AttemptsSurvive(s.attempts, s.db, Next(check, s, step).db);
        LogSurvives(s.log, s.db, Next(check, s, step).db);
      }
  }

  lemma {:induction false} RunKeeps(check: UrlCheck, s: Sys, steps: seq<Step>)
    requires Inv(check, s)
    ensures Inv(check, Run(check, s, steps)) && Extends(s.db, Run(check, s, steps).db)
    decreases |steps|
  {
    ExtendsRefl(s.db);
    if steps != [] {
      var s' := Next(check, s, steps[0]);
      NextKeeps(check, s, steps[0]);
      RunKeeps(check, s', steps[1..]);
      ExtendsTrans(s.db, s'.db, Run(check, s, steps).db);
    }
  }

  // ---------------------------------------------------------------- main results

  /** Keys and orders stay in one-to-one correspondence: a key never gets a second order, nor an order a second key. */
  lemma OneOrderPerKey(check: UrlCheck, steps: seq<Step>, more: seq<Step>, key: bytes)
    requires key in Run(check, Empty, steps).db.reservations
    ensures var now, later := Run(check, Empty, steps).db, Run(check, Run(check, Empty, steps), more).db;
            && key in later.reservations && later.reservations[key].order == now.reservations[key].order
            && now.reservations[key].order in now.orders
            && (forall k :: k in later.reservations && k != key ==>
                  later.reservations[k].order != now.reservations[key].order)
  {
    RunKeeps(check, Empty, steps);
    RunKeeps(check, Run(check, Empty, steps), more);
    var db := Run(check, Empty, steps).db;
    assert ReservationInv(check, db.reservations[key], db.orders, db.tokens, db.nextLease);
  }

  /** At most one finalize ever succeeds per key, and every answer for a key names the same order, URL and states. */
  lemma AnswersAgree(check: UrlCheck, steps: seq<Step>)
    ensures var log := Run(check, Empty, steps).log;
            && (forall i, j :: (0 <= i < j < |log| && log[i].finalized && log[j].finalized) ==>
                  log[i].key != log[j].key)
            && (forall i, j :: (0 <= i < |log| && 0 <= j < |log| && log[i].key == log[j].key) ==>
                  log[i].output.order == log[j].output.order && log[i].output.url == log[j].output.url)
            && (forall i :: 0 <= i < |log| ==>
                  log[i].output.payment == CheckoutOpen && log[i].output.fulfillment == AwaitingPayment)
  {
    RunKeeps(check, Empty, steps);
    var s := Run(check, Empty, steps);
    forall i, j | 0 <= i < |s.log| && 0 <= j < |s.log| && s.log[i].key == s.log[j].key
      ensures s.log[i].output.order == s.log[j].output.order && s.log[i].output.url == s.log[j].output.url
    {
      assert ResponseInv(s.log[i], s.db.reservations) && ResponseInv(s.log[j], s.db.reservations);
    }
    forall i | 0 <= i < |s.log|
      ensures s.log[i].output.payment == CheckoutOpen && s.log[i].output.fulfillment == AwaitingPayment
    {
      assert ResponseInv(s.log[i], s.db.reservations);
      var k := s.log[i].key;
      assert ReservationInv(check, s.db.reservations[k], s.db.orders, s.db.tokens, s.db.nextLease);
    }
  }

  /** A finalize succeeds only for the newest plan of its key, under a lease that has not run out. */
  lemma FinalizedUnderLease(check: UrlCheck, s: Sys, id: nat, c: Config, session: string, url: string, now: Time)
    requires Inv(check, s) && id in s.attempts
    requires Finalize(check, s.db, c, s.attempts[id].plan, s.attempts[id].hash, session, url, now).1.Answered?
    ensures var plan := s.attempts[id].plan;
            && plan.lease == s.db.reservations[plan.key].lease && now < s.db.reservations[plan.key].leaseExpiresAt
            && (forall b :: b in s.attempts && s.attempts[b].plan.key == plan.key && b != id ==>
                  s.attempts[b].plan.lease < plan.lease)
  {
    var plan := s.attempts[id].plan;
    forall b | b in s.attempts && s.attempts[b].plan.key == plan.key && b != id
      ensures s.attempts[b].plan.lease < plan.lease
    {
      assert AttemptInv(s.attempts[b], s.db);
    }
  }

  /** The provider is asked the same question by every attempt of a key, so its own idempotency key is never misused. */
  lemma PlansAgree(check: UrlCheck, steps: seq<Step>, a: nat, b: nat)
    requires var s := Run(check, Empty, steps);
             a in s.attempts && b in s.attempts && s.attempts[a].plan.key == s.attempts[b].plan.key
    ensures var s := Run(check, Empty, steps);
            s.attempts[a].plan == s.attempts[b].plan.(lease := s.attempts[a].plan.lease)
  {
    RunKeeps(check, Empty, steps);
    var s := Run(check, Empty, steps);
    assert AttemptInv(s.attempts[a], s.db) && AttemptInv(s.attempts[b], s.db);
  }

  /** No order ever has two live tokens, with rotations and replays in any order. */
  lemma OneLiveToken(check: UrlCheck, steps: seq<Step>, ref: Ref)
    ensures var ts := TokensOf(Run(check, Empty, steps).db.tokens, ref);
            forall i, j :: (0 <= i < |ts| && 0 <= j < |ts| && ts[i].revokedAt.None? && ts[j].revokedAt.None?) ==> i == j
  {
    RunKeeps(check, Empty, steps);
    var db := Run(check, Empty, steps).db;
    assert ref in db.tokens ==> TokensInv(db.tokens[ref], db.nextToken);
  }

  /** Until the grace period of the last plan or answer is over, nobody gets a plan or a token for the key. */
  lemma GraceProtects(check: UrlCheck, db: Db, c: Config, key: bytes, hash: bytes, email: string, ref: Ref, now: Time)
    requires DbInv(check, db) && key in db.reservations && db.reservations[key].leaseExpiresAt > now
    ensures Reserve(check, db, c, key, hash, email, ref, now).0 == db
    ensures Reserve(check, db, c, key, hash, email, ref, now).1.Refused?
  {
    assert ReservationInv(check, db.reservations[key], db.orders, db.tokens, db.nextLease);
  }

  /**
   Afterwards a completed checkout can always be asked again: the same request under the same payment mode gets the
   stored answer and the only live token.
   */
  lemma ReplayAnswers(check: UrlCheck, db: Db, c: Config, key: bytes, email: string, ref: Ref, now: Time)
    requires DbInv(check, db) && key in db.reservations && db.reservations[key].state == Completed
    requires db.reservations[key].leaseExpiresAt <= now
    ensures db.reservations[key].order in db.orders && db.reservations[key].body.Some?
    ensures var r := db.reservations[key];
            var (db', reply) := Reserve(check, db, c, key, r.requestHash, email, ref, now);
            db.orders[r.order].mode == c.mode ==>
              && reply == Answered(Output(r.order, db.nextToken, r.body.value.url, CheckoutOpen, AwaitingPayment))
              && (var ts := TokensOf(db'.tokens, r.order);
                  && |ts| > 0 && ts[|ts| - 1].raw == db.nextToken && ts[|ts| - 1].revokedAt.None?
                  && forall i :: 0 <= i < |ts| - 1 ==> ts[i].revokedAt.Some?)
  {
    var r := db.reservations[key];
    assert ReservationInv(check, r, db.orders, db.tokens, db.nextLease);
    if db.orders[r.order].mode == c.mode {
      var leased := Leased(db, c, key, now);
      assert Reserve(check, db, c, key, r.requestHash, email, ref, now)
          == (IssueFor(leased, r.order, true, now, c.ttl),
              Answered(Output(r.order, db.nextToken, r.body.value.url, CheckoutOpen, AwaitingPayment)));
      assert r.order in db.tokens ==> TokensInv(db.tokens[r.order], db.nextToken);
      IssueKeeps(TokensOf(db.tokens, r.order), true, now, c.ttl, db.nextToken);
    }
  }

  /** A rotation needs the one live token and kills it: the old token never rotates again. */
  lemma RotationSpends(check: UrlCheck, db: Db, c: Config, ref: Ref, raw: nat, now: Time)
    requires DbInv(check, db) && Rotate(db, c, ref, raw, now).1.Some?
    ensures var (db', token) := Rotate(db, c, ref, raw, now);
            && token == Some(db.nextToken) && raw != db.nextToken
            && (forall later, c2 :: Rotate(db', c2, ref, raw, later) == (db', None))
  {
    IssueForKeeps(check, db, ref, true, now, c.ttl);
    assert TokensInv(db.tokens[ref], db.nextToken);
    IssueKeeps(TokensOf(db.tokens, ref), true, now, c.ttl, db.nextToken);
  }
}
