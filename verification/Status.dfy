/** The order status: what the server projects from the rows, and what the browser refuses to believe. */
module Status {
  import opened Prelude
  import opened Orders
  import opened Evidence
  import opened EvidenceInvariant
  import opened FulfillmentHandlers
  import opened FulfillmentInvariant
  import O = Outbox

  /** The services `order_status` needs; either may be missing from a deployment. */
  datatype Services = Services(proofStore: bool, proofBundler: bool)

  datatype OrderStatus = OrderStatus(
    payment: Payment, fulfillment: Fulfillment, calendarAt: Option<Time>, bitcoinAt: Option<Time>, proofAvailable: bool)

  // ---------------------------------------------------------------- the server

  predicate ValidBundle(w: World, b: Bundle) { 1 <= |b.data| <= MAX_BUNDLE_BYTES && w.sha(b.data) == b.sha }

  /** `_valid_delivery_sender`. */
  ghost predicate ValidSender(r: Rows, version: nat) {
    var key := KeyOf(r, O.Initial, version);
    && key in r.box.notices
    && (var row := r.box.notices[key].row;
        && row.state == O.Delivered && row.confirmations >= 1
        && row.providerId.Some? && row.acceptedAt.Some? && row.deliveredAt.Some?
        && row.observation < |r.observations|
        && r.observations[row.observation].version == version
        && r.observations[row.observation].confirmations == row.confirmations
        && HasDelivery(r.emails, row.providerId))
  }

  /** `order_status`; `None` is the 503 answer. */
  ghost function Project(w: World, s: Services, r: Rows): Option<OrderStatus> {
    if r.fulfillment !in {CalendarPending, BitcoinVerified, Delivered} then
      Some(OrderStatus(r.payment, r.fulfillment, None, None, false))
    else if !s.proofStore || Latest(w, r).Err? || Latest(w, r).value.None? then None
    else
      var proof := Latest(w, r).value.value;
      if r.fulfillment == CalendarPending then
        if proof.verification.Some? || !s.proofBundler then None
        else Some(OrderStatus(r.payment, r.fulfillment, Some(proof.calendarAt), None, true))
      else if proof.verification.None? then None
      else
        var available := proof.version in r.bundles && ValidBundle(w, r.bundles[proof.version]);
        if r.fulfillment == Delivered && (!available || !ValidSender(r, proof.version)) then None
        else
          Some(OrderStatus(r.payment, r.fulfillment, Some(proof.calendarAt), Some(proof.verification.value.verifiedAt),
            available))
  }

  // ---------------------------------------------------------------- the browser

  /** `Date.parse` keeps milliseconds. */
  function Millis(t: Time): int { t / 1000 }

  /** The contradiction checks of `parseOrderStatus`. */
  predicate Accepts(o: OrderStatus) {
    && !(o.payment in {CheckoutOpen, Processing, Failed, Expired}
       && o.fulfillment !in {AwaitingPayment, InManualReview})
    && !(o.payment == Paid && o.fulfillment == AwaitingPayment)
    && !(o.fulfillment in {AwaitingPayment, Queued, Stamping, InManualReview}
       && (o.calendarAt.Some? || o.bitcoinAt.Some?))
    && !(o.fulfillment in {CalendarPending, Delivered} && !o.proofAvailable)
    && !(o.fulfillment in {AwaitingPayment, Queued, Stamping, InManualReview} && o.proofAvailable)
    && !(o.fulfillment !in {BitcoinVerified, Delivered} && o.bitcoinAt.Some?)
    && !(o.fulfillment == CalendarPending && (o.calendarAt.None? || o.bitcoinAt.Some?))
    && !(o.fulfillment in {BitcoinVerified, Delivered} && (o.calendarAt.None? || o.bitcoinAt.None?))
    && !(o.bitcoinAt.Some? && o.calendarAt.None?)
    && !(o.calendarAt.Some? && o.bitcoinAt.Some? && Millis(o.bitcoinAt.value) < Millis(o.calendarAt.value))
  }

  // ---------------------------------------------------------------- they agree

  lemma VerifiedLater(w: World, r: Rows)
    requires Inv(w, r) && Latest(w, r).Ok? && Latest(w, r).value.Some? && Latest(w, r).value.value.verification.Some?
    ensures var p := Latest(w, r).value.value; p.calendarAt <= p.verification.value.verifiedAt
  {
    LatestFacts(w, r);
  }

  lemma InvAccepts(w: World, s: Services, r: Rows)
    requires Inv(w, r) && Project(w, s, r).Some?
    ensures Accepts(Project(w, s, r).value)
  {
    if VerifiedStage(r.fulfillment) { VerifiedLater(w, r); }
  }

  /** For every reachable order, whatever status the server returns passes every contradiction check of the browser. */
  lemma ClientAcceptsEveryStatus(
      w: World, limits: Limits, ref: string, digest: bytes, clock: Time, steps: seq<Step>, s: Services)
    ensures var r := Run(w, limits, Start0(ref, digest, clock), steps).rows;
            Project(w, s, r).Some? ==> Accepts(Project(w, s, r).value)
  {
    FreshInv(w, ref, digest, clock);
    RunKeeps(w, limits, Start0(ref, digest, clock), steps);
    var r := Run(w, limits, Start0(ref, digest, clock), steps).rows;
    if Project(w, s, r).Some? { InvAccepts(w, s, r); }
  }

  /** A version is projected as verified exactly when it is confirmed on a verified order. */
  lemma ProjectedExactly(r: Rows, version: nat)
    ensures Projected(r, version).Some? <==>
              VerifiedStage(r.fulfillment) && Confirmed(r.verifications, r.observations, version)
  {
    var found := LatestObservation(r.observations, version);
    if found.Some? { assert r.observations[found.value].version == version; }
  }

  lemma SenderIsHandOver(w: World, r: Rows, v: nat)
    requires Inv(w, r) && KeyOf(r, O.Initial, v) in r.box.notices
    ensures ValidSender(r, v) <==> r.box.notices[KeyOf(r, O.Initial, v)].row.state == O.Delivered
  {
    var key := KeyOf(r, O.Initial, v);
    assert NoticeBound(r.ref, key, r.box.notices[key].row, r.observations, r.emails);
    assert O.NoticeInv(r.box.notices[key], r.box.nextToken);
  }

  /** What the newest proof version must have for the server to answer at all. */
  ghost predicate Answerable(r: Rows) {
    && (r.fulfillment == BitcoinVerified ==> Confirmed(r.verifications, r.observations, |r.proofs|))
    && (r.fulfillment == Delivered ==> HandedOver(r, |r.proofs|))
  }

  /**
   With both services up, the server answers exactly when the newest version has what the state promises.  An upgrade
   that appends a version after another one was verified or delivered makes the answer unavailable.
   */
  lemma AnswersExactly(w: World, r: Rows)
    requires Inv(w, r)
    ensures Project(w, Services(true, true), r).Some? <==> Answerable(r)
  {
    LatestFacts(w, r);
    LatestIsLast(r.proofs);
    ProjectedExactly(r, |r.proofs|);
    var key := KeyOf(r, O.Initial, |r.proofs|);
    if key in r.box.notices { SenderIsHandOver(w, r, |r.proofs|); }
  }

  /** The stored bundle of the newest version. */
  predicate HasBundle(r: Rows) { |r.proofs| in r.bundles }

  /**
   What the server answers for every order and deployment.  Before the calendars answered, and in manual review, only
   the states are shown.  Afterwards the proof store is needed, for a pending order the bundler too, and for a verified
   one the evidence of the newest version; then the calendar's and the verification's times are the stored ones.
   */
  lemma ProjectsExactly(w: World, s: Services, r: Rows)
    requires Inv(w, r)
    ensures Project(w, s, r)
         == match r.fulfillment
            case CalendarPending =>
              if s.proofStore && s.proofBundler then
                Some(OrderStatus(r.payment, r.fulfillment, r.calendarAt, None, true))
              else None
            case BitcoinVerified | Delivered =>
              if s.proofStore && Answerable(r) && |r.proofs| in r.verifications then
                Some(OrderStatus(r.payment, r.fulfillment, r.calendarAt,
                                 Some(r.verifications[|r.proofs|].verifiedAt), HasBundle(r)))
              else None
            case _ => Some(OrderStatus(r.payment, r.fulfillment, None, None, false))
  {
    if r.fulfillment in {CalendarPending, BitcoinVerified, Delivered} {
      LatestFacts(w, r);
      LatestIsLast(r.proofs);
      ProjectedExactly(r, |r.proofs|);
      var key := KeyOf(r, O.Initial, |r.proofs|);
      if key in r.box.notices { SenderIsHandOver(w, r, |r.proofs|); }
    }
  }

  /** Such an upgrade, still under way when another one finished, takes the answer of a verified order away. */
  lemma LateUpgradeHidesStatus(w: World, r: Rows, p: StoredProof)
    requires Inv(w, r) && VerifiedStage(r.fulfillment) && Append(w, r, p).Ok? && p.version == |r.proofs| + 1
    requires w.valid(r.digest, p.data) && p.sha == w.sha(p.data)
    ensures Project(w, Services(true, true), Append(w, r, p).value) == None
  {
    LatestIsLast(r.proofs);
    var r' := Append(w, r, p).value;
    AppendKeeps(w, r, p, r');
    AnswersExactly(w, r');
    assert |r'.proofs| == p.version && p.version !in r.verifications;
  }
}
