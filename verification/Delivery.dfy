/**
 Delivery is confluent: acceptance by the provider and its webhooks may come in any order.

 The initial notice of a verified order is leased and its evidence is in place.  The dispatcher records the
 acceptance at some moment, and webhooks about the same provider id arrive before and after, with replays.
 */
module Delivery {
  import opened Prelude
  import opened Orders
  import opened Evidence
  import opened EvidenceInvariant
  import O = Outbox

  datatype Step = Accept | Mail(email: Email)

  /** One delivery in progress: the claim that sent the notice, the provider's id for it, and the time of recording. */
  datatype Sending = Sending(claim: O.Claim, id: string, now: Time)

  ghost function Next(w: World, d: Sending, r: Rows, step: Step): Rows {
    match step
    case Accept => (match AcceptNotice(w, r, d.claim, d.id, 200, d.now) case Ok(r') => r' case Err(_) => r)
    case Mail(e) => (match Webhook(w, r, e) case Ok(result) => result.0 case Err(_) => r)
  }

  ghost function Run(w: World, d: Sending, r: Rows, steps: seq<Step>): Rows
    decreases |steps|
  {
    if steps == [] then r else Run(w, d, Next(w, d, r, steps[0]), steps[1..])
  }

  /** How many of the steps moved the order. */
  ghost function Moves(w: World, d: Sending, r: Rows, steps: seq<Step>): nat
    decreases |steps|
  {
    if steps == [] then 0
    else
      var r' := Next(w, d, r, steps[0]);
      (if r'.fulfillment != r.fulfillment then 1 else 0) + Moves(w, d, r', steps[1..])
  }

  // ---------------------------------------------------------------- what the run starts from

  /** The rows behind a delivery, which no delivery step writes. */
  ghost predicate SameEvidence(r: Rows, r': Rows) {
    && r'.ref == r.ref && r'.digest == r.digest && r'.payment == r.payment && r'.calendarAt == r.calendarAt
    && r'.proofs == r.proofs && r'.verifications == r.verifications && r'.observations == r.observations
    && r'.bundles == r.bundles
  }

  /** The checks of `_delivery_evidence_matches` that do not look at the notice's own progress. */
  predicate Ready(w: World, r: Rows, key: O.NoticeKey) {
    && key in r.box.notices && key.kind == O.Initial && key.order == r.ref
    && r.box.notices[key].row.confirmations >= 1
    && (var latest := LatestProof(r.proofs);
        && latest.Some? && latest.value.version == key.version && latest.value.digest == r.digest
        && w.sha(latest.value.data) == latest.value.sha)
    && key.version in r.verifications && key.version in r.bundles
    && ObservationMatches(r, key)
    && w.sha(r.bundles[key.version].data) == r.bundles[key.version].sha
  }

  ghost predicate Genuine(emails: seq<Email>, steps: seq<Step>, id: string) {
    && (forall s :: s in steps && s.Mail? ==> s.email.providerId == id)
    && (forall e, s :: e in emails && s in steps && s.Mail? && s.email.svix == e.svix ==> s.email == e)
    && (forall s, t :: s in steps && t in steps && s.Mail? && t.Mail? && s.email.svix == t.email.svix ==> s == t)
  }

  /** Before acceptance: nobody knows the provider id. */
  ghost predicate Unsent(w: World, d: Sending, r: Rows) {
    && Inv(w, r) && Ready(w, r, d.claim.key) && r.fulfillment == BitcoinVerified
    && O.LeaseActive(r.box, d.claim, d.now) && !O.ProviderIdUsed(r.box, d.id) && 1 <= |d.id| <= 128
  }

  /** After acceptance: notice and order are delivered together, and as soon as a delivery event is stored. */
  ghost predicate Sent(w: World, d: Sending, r: Rows) {
    && Inv(w, r) && Ready(w, r, d.claim.key)
    && HasProviderId(r, d.claim.key, d.id)
    && (var state := r.box.notices[d.claim.key].row.state;
        && state in {O.Accepted, O.Failed, O.Delivered}
        && (state == O.Delivered ==> r.fulfillment == Delivered)
        && (state != O.Delivered ==> r.fulfillment == BitcoinVerified && !HasDelivery(r.emails, Some(d.id))))
  }
}
