/** One order's rows as the repositories see them: methods that write the fields in place. */
module EvidenceStore {
  import opened Prelude
  import opened Orders
  import opened Evidence
  import O = Outbox

  class SqlFulfillmentStore {
    const ref: string
    const digest: bytes
    var payment: Payment
    var fulfillment: Fulfillment
    var calendarAt: Option<Time>
    var proofs: seq<ProofRow>
    var verifications: map<nat, VerificationRow>
    var observations: seq<Observation>
    var bundles: map<nat, Bundle>
    var events: map<EventKey, Fulfillment>
    var box: O.Box
    var emails: seq<Email>

    constructor (ref: string, digest: bytes)
      ensures Contents()
           == Rows(ref, digest, CheckoutOpen, AwaitingPayment, None, [], map[], [], map[], map[], O.Box(map[], 0), [])
    {
      this.ref, this.digest := ref, digest;
      payment, fulfillment, calendarAt := CheckoutOpen, AwaitingPayment, None;
      proofs, verifications, observations, bundles, events := [], map[], [], map[], map[];
      box, emails := O.Box(map[], 0), [];
    }

    function Contents(): Rows
      reads this
    {
      Rows(ref, digest, payment, fulfillment, calendarAt, proofs, verifications, observations, bundles, events, box,
        emails)
    }

    /** `_merge_calendar_time`. */
    method MergeCalendarTime(supplied: Option<Time>) returns (ok: bool)
      modifies this`calendarAt
      ensures match MergeCalendar(old(calendarAt), supplied)
              case Ok(at) => ok && calendarAt == at
              case Err(_) => !ok && calendarAt == old(calendarAt)
    {
      if supplied.None? { return true; }
      if calendarAt.None? {
        calendarAt := supplied;
      } else if calendarAt != supplied {
        return false;
      }
      ok := true;
    }

    method AppendProof(w: World, p: StoredProof) returns (error: Option<string>)
      modifies this
      ensures match Append(w, old(Contents()), p)
              case Ok(r) => Contents() == r && error == None
              case Err(e) => Contents() == old(Contents()) && error == Some(e)
    {
      if !(1 <= |p.data| <= MAX_PROOF_BYTES) { return Some("proof_size_invalid"); }
      if digest != p.digest { return Some("proof_target_does_not_match_order"); }
      var before := calendarAt;
      var merged := MergeCalendarTime(Some(p.calendarAt));
      if !merged { return Some("calendar_submission_time_conflict"); }
      var latest := LatestProof(proofs);
      if latest.Some? && p.version == latest.value.version {
        if Stored(w, latest.value, None) == Ok(p) { return None; }
        error := Some("proof_version_conflict");
      } else if latest.None? && p.version != 1 {
        error := Some("first_proof_version_must_be_one");
      } else if latest.Some? && p.version != latest.value.version + 1 {
        error := Some("proof_version_must_append");
      } else if latest.Some? && latest.value.digest != p.digest {
        error := Some("proof_target_is_immutable");
      } else {
        proofs := proofs + [ProofRow(p.version, p.digest, p.data, p.sha, p.calendarAt)];
        error := None;
      }
      if error.Some? { calendarAt := before; }
    }

    method TransitionFulfillmentOnce(target: Fulfillment, key: EventKey, supplied: Option<Time>)
      returns (error: Option<string>)
      modifies this
      ensures match TransitionOnce(old(Contents()), target, key, supplied)
              case Ok(r) => Contents() == r && error == None
              case Err(e) => Contents() == old(Contents()) && error == Some(e)
    {
      if key in events {
        if events[key] != target { return Some("fulfillment_event_key_conflict"); }
        var ok := MergeCalendarTime(supplied);
        return if ok then None else Some("calendar_submission_time_conflict");
      }
      error := TransitionNew(target, key, supplied);
    }

    /** The transition under a key that was not used before. */
    method TransitionNew(target: Fulfillment, key: EventKey, supplied: Option<Time>) returns (error: Option<string>)
      requires key !in events
      modifies this
      ensures match TransitionOnce(old(Contents()), target, key, supplied)
              case Ok(r) => Contents() == r && error == None
              case Err(e) => Contents() == old(Contents()) && error == Some(e)
    {
      var transitioned := TransitionFulfillment(payment, fulfillment, target);
      if transitioned.None? { return Some("fulfillment_transition_illegal"); }
      LandsOnTarget(payment, fulfillment, target);
      var before := calendarAt;
      var merged := MergeCalendarTime(supplied);
      if !merged { return Some("calendar_submission_time_conflict"); }
      if target == CalendarPending && calendarAt.None? {
        calendarAt := before;
        return Some("calendar_submission_time_required");
      }
      fulfillment := transitioned.value;
      events := events[key := fulfillment];
      error := None;
    }

    method PutVerifiedOnce(version: nat, v: Verification) returns (error: Option<string>)
      modifies this
      ensures match PutVerified(old(Contents()), version, v)
              case Ok(r) => Contents() == r && error == None
              case Err(e) => Contents() == old(Contents()) && error == Some(e)
    {
      if v.confirmations < 1 { return Some("verification_confirmation_count_invalid"); }
      var proof := FindProof(proofs, version);
      if proof.None? { return Some("verification_proof_not_found"); }
      if proof.value.digest != digest { return Some("verification_proof_target_conflict"); }
      if version in verifications {
        return if Matches(verifications[version], v) then None else Some("verification_conflict");
      }
      verifications := verifications[version := VerificationRow(v.block, v.blockTime, v.verifiedAt)];
      error := None;
    }

    method RecordObservationOnce(version: nat, key: ObservationKey, v: Verification) returns (r: Result<nat, string>)
      modifies this
      ensures match RecordOnce(old(Contents()), version, key, v)
              case Ok(recorded) => Contents() == recorded.rows && r == Ok(recorded.row)
              case Err(e) => Contents() == old(Contents()) && r == Err(e)
    {
      if version < 1 || v.confirmations < 1 { return Err("confirmation_observation_verification_invalid"); }
      var proof := LatestProof(proofs);
      if proof.None? || proof.value.version != version || proof.value.digest != digest {
        return Err("confirmation_observation_proof_not_current");
      }
      if version !in verifications || !Matches(verifications[version], v) {
        return Err("confirmation_observation_verification_mismatch");
      }
      var existing := FindObservation(observations, key);
      if existing.Some? {
        if observations[existing.value] != Observation(key, version, v.block, v.confirmations, v.verifiedAt) {
          return Err("confirmation_observation_event_conflict");
        }
        return Ok(existing.value);
      }
      r := Ok(|observations|);
      observations := observations + [Observation(key, version, v.block, v.confirmations, v.verifiedAt)];
    }

    method PutBundleOnce(w: World, version: nat, data: bytes) returns (error: Option<string>)
      modifies this
      ensures match PutBundle(w, old(Contents()), version, data)
              case Ok(r) => Contents() == r && error == None
              case Err(e) => Contents() == old(Contents()) && error == Some(e)
    {
      if !(1 <= |data| <= MAX_BUNDLE_BYTES) { return Some("bundle_size_invalid"); }
      var checksum := w.sha(data);
      if !w.bundleSafe(data) { return Some("bundle_contains_sensitive_data"); }
      var proof := FindProof(proofs, version);
      if proof.None? { return Some("bundle_proof_not_found"); }
      if proof.value.digest != digest { return Some("bundle_proof_target_conflict"); }
      if version in bundles {
        return if bundles[version] == Bundle(data, checksum) then None else Some("bundle_conflict");
      }
      bundles := bundles[version := Bundle(data, checksum)];
      error := None;
    }

    /** `enqueue` of a confirmation notice. */
    method EnqueueMessage(kind: O.Kind, version: nat, confirmations: int, now: Time, horizon: Time, max: nat)
      returns (error: Option<string>)
      modifies this
      ensures match EnqueueNotice(old(Contents()), kind, version, confirmations, now, horizon, max)
              case Ok(r) => Contents() == r && error == None
              case Err(e) => Contents() == old(Contents()) && error == Some(e)
    {
      if !(1 <= version <= MAX_COUNT) || !(O.Threshold(kind) <= confirmations <= MAX_COUNT) {
        return Some("notification_milestone_invalid");
      }
      var proof := LatestProof(proofs);
      var current := LatestObservation(observations, version);
      if proof.None? || proof.value.version != version || proof.value.digest != digest || version !in verifications
         || current.None? || observations[current.value].confirmations != confirmations
         || observations[current.value].block != verifications[version].block {
        return Some("notification_confirmation_observation_missing");
      }
      var key := O.NoticeKey(kind, version, ref);
      if key in box.notices {
        return if SameMessage(Contents(), key, observations[current.value]) then None
          else Some("outbox_message_key_conflict");
      }
      var row := O.Row(confirmations, current.value, O.Available, 0, max, now, None, None, None, None, None, None,
        now + horizon);
      box := box.(notices := box.notices[key := O.Notice(row, [])]);
      error := None;
    }

    /** `_apply_delivered_event`. */
    method ApplyDeliveredEvent(w: World, key: O.NoticeKey, e: Email) returns (delivered: bool, transitioned: bool)
      modifies this
      ensures (Contents(), delivered, transitioned) == ApplyDelivered(w, old(Contents()), key, e)
    {
      if key !in box.notices { return false, false; }
      var row := box.notices[key].row;
      if row.state == O.Delivered || row.acceptedAt.None? || row.providerId != Some(e.providerId)
         || e.kind != EmailDelivered {
        return false, false;
      }
      if !DeliveryEvidence(w, Contents(), key) { return false, false; }
      if fulfillment !in {BitcoinVerified, Delivered} { return false, false; }
      row := row.(state := O.Delivered, deliveredAt := Some(e.createdAt));
      box := box.(notices := box.notices[key := box.notices[key].(row := row)]);
      if key.kind == O.Final || fulfillment == Delivered { return true, false; }
      fulfillment := Delivered;
      events := events[ResendDelivered(e.svix) := fulfillment];
      return true, true;
    }

    /** `process` of the webhook store; `found` is what the query by provider id answers. */
    method ProcessResendEvent(w: World, e: Email, found: Option<O.NoticeKey>)
      returns (error: Option<string>, result: WebhookResult)
      requires found == ByProviderId(Contents(), e.providerId)
      modifies this
      ensures match Webhook(w, old(Contents()), e)
              case Ok(next) => error == None && Contents() == next.0 && result == next.1
              case Err(m) => error == Some(m) && Contents() == old(Contents())
    {
      error, result := None, WebhookResult(false, false, false);
      var existing := FindEmail(emails, e.svix);
      if existing.Some? {
        if existing.value != e { return Some("resend_webhook_replay_conflict"), result; }
        result := result.(duplicate := true);
        if e.kind == EmailDelivered && found.Some? {
          var delivered, transitioned := ApplyDeliveredEvent(w, found.value, e);
          result := result.(delivered := delivered, transitioned := transitioned);
        }
        return;
      }
      emails := emails + [e];
      if found.None? { return; }
      var row := box.notices[found.value].row;
      if row.acceptedAt.None? { return; }
      if e.kind == EmailBad {
        if row.state != O.Delivered {
          row := row.(state := O.Failed);
          box := box.(notices := box.notices[found.value := box.notices[found.value].(row := row)]);
        }
      } else if e.kind == EmailDelivered {
        var delivered, transitioned := ApplyDeliveredEvent(w, found.value, e);
        result := result.(delivered := delivered, transitioned := transitioned);
      }
    }

    /** `record_accepted` of the outbox: the box's own part, then the delivery that arrived first. */
    method RecordAcceptance(w: World, c: O.Claim, id: string, status: int, now: Time)
      returns (error: Option<O.RecordError>)
      modifies this
      ensures match AcceptNotice(w, old(Contents()), c, id, status, now)
              case Ok(r) => error == None && Contents() == r
              case Err(m) => error == Some(m) && Contents() == old(Contents())
    {
      var recorded := O.RecordAccepted(box, c, id, status, now);
      if recorded.Err? { return Some(recorded.error); }
      box := recorded.value;
      var first := EarliestDelivered(emails, id);
      if first.Some? {
        var _, _ := ApplyDeliveredEvent(w, c.key, first.value);
      }
      error := None;
    }
  }

  lemma LandsOnTarget(p: Payment, f: Fulfillment, target: Fulfillment)
    requires TransitionFulfillment(p, f, target).Some?
    ensures TransitionFulfillment(p, f, target).value == target
  {
  }
}
