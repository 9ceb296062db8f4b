/** What every delivery webhook and every acceptance does to the rows of an order. */
module DeliveryOutcomes {
  import opened Prelude
  import opened Orders
  import opened Evidence
  import opened EvidenceInvariant
  import opened FulfillmentRecovery
  import O = Outbox
  import OO = OutboxOutcomes

  /** The accepted notice is about the newest version, which is verified, observed often enough, and bundled. */
  ghost predicate Deliverable(r: Rows, key: O.NoticeKey) {
    && key in r.box.notices && r.fulfillment in {BitcoinVerified, Delivered}
    && (r.box.notices[key].row.state == O.Accepted || r.box.notices[key].row.state == O.Failed)
    && r.box.notices[key].row.providerId.Some?
    && key.version == |r.proofs| && key.version in r.bundles && Observed(r, key.version)
    && Count(r, key.version) >= (if key.kind == O.Initial then 1 else 6)
  }

  /** The first initial notice delivers the order. */
  predicate MovesOrder(r: Rows, key: O.NoticeKey) { key.kind == O.Initial && r.fulfillment == BitcoinVerified }

  /** The rows with the notice delivered at the event's time. */
  function Marked(r: Rows, key: O.NoticeKey, e: Email): Rows
    requires key in r.box.notices
  {
    var n := r.box.notices[key];
    var box := r.box.(notices := r.box.notices[key := n.(row := n.row.(state := O.Delivered,
                                                                       deliveredAt := Some(e.createdAt)))]);
    if MovesOrder(r, key)
    then r.(box := box, fulfillment := Delivered, events := r.events[ResendDelivered(e.svix) := Delivered])
    else r.(box := box)
  }

  lemma EvidenceExactly(w: World, r: Rows, key: O.NoticeKey)
    requires Inv(w, r) && key in r.box.notices
    ensures DeliveryEvidence(w, r, key) && VerifiedStage(r.fulfillment) <==> Deliverable(r, key)
  {
    LatestIsLast(r.proofs);
    var row := r.box.notices[key].row;
    assert O.NoticeInv(r.box.notices[key], r.box.nextToken);
    assert NoticeBound(r.ref, key, row, r.observations, r.emails);
    assert Agrees(r.verifications, r.observations[row.observation]);
    var i := LatestObservation(r.observations, key.version);
    if i.Some? { assert Agrees(r.verifications, r.observations[i.value]); }
  }

  /** A delivery event for the notice's own provider id delivers exactly a deliverable notice. */
  lemma AppliesExactly(w: World, r: Rows, key: O.NoticeKey, e: Email)
    requires Inv(w, r) && HasProviderId(r, key, e.providerId) && e.kind == EmailDelivered
    ensures ApplyDelivered(w, r, key, e)
         == if Deliverable(r, key) then (Marked(r, key, e), true, MovesOrder(r, key)) else (r, false, false)
  {
    EvidenceExactly(w, r, key);
    assert O.NoticeInv(r.box.notices[key], r.box.nextToken);
  }

  /** The box with a bad event about the notice: it failed, unless it was delivered. */
  function Bounced(r: Rows, key: O.NoticeKey): O.Box
    requires key in r.box.notices
  {
    var n := r.box.notices[key];
    if n.row.state == O.Delivered then r.box
    else r.box.(notices := r.box.notices[key := n.(row := n.row.(state := O.Failed))])
  }

  /**
   What a webhook does.  Another event under a known id is refused.  A new one is stored, a known one is not.
   A delivery, new or known, delivers the notice with its provider id if that is deliverable; a bad event fails it when
   it is new.
   */
  ghost predicate WebhookOutcome(r: Rows, e: Email, result: Result<(Rows, WebhookResult), string>) {
    var known, key := FindEmail(r.emails, e.svix), ByProviderId(r, e.providerId);
    if known.Some? && known.value != e then result.Err?
    else
      var r1 := if known.Some? then r else r.(emails := r.emails + [e]);
      if key.Some? && e.kind == EmailDelivered && Deliverable(r, key.value) then
        result == Ok((Marked(r1, key.value, e), WebhookResult(known.Some?, true, MovesOrder(r, key.value))))
      else if key.Some? && e.kind == EmailBad && known.None? then
        result == Ok((r1.(box := Bounced(r, key.value)), WebhookResult(false, false, false)))
      else result == Ok((r1, WebhookResult(known.Some?, false, false)))
  }

  lemma WebhookExactly(w: World, r: Rows, e: Email)
    requires Inv(w, r)
    ensures WebhookOutcome(r, e, Webhook(w, r, e))
  {
    var key := ByProviderId(r, e.providerId);
    var stored := r.(emails := r.emails + [e]);
    EmailKeeps(w, r, e);
    if key.Some? {
      assert HasProviderId(r, key.value, e.providerId) && HasProviderId(stored, key.value, e.providerId);
      assert O.NoticeInv(r.box.notices[key.value], r.box.nextToken);
      if e.kind == EmailDelivered {
        AppliesExactly(w, r, key.value, e);
        AppliesExactly(w, stored, key.value, e);
      }
      assert r.box.notices[key.value := r.box.notices[key.value]] == r.box.notices;
    }
  }

  /** The stored event delivers the id at this index, none does earlier, and of equal times it was stored first. */
  predicate EarliestAt(emails: seq<Email>, id: string, i: int) {
    && 0 <= i < |emails| && Delivers(emails[i], id)
    && forall j :: 0 <= j < |emails| && Delivers(emails[j], id) ==>
         if j < i then emails[i].createdAt < emails[j].createdAt else emails[i].createdAt <= emails[j].createdAt
  }

  predicate Delivers(e: Email, id: string) { e.kind == EmailDelivered && e.providerId == id }

  lemma EarliestStays(front: seq<Email>, last: Email, id: string, i: int)
    requires EarliestAt(front, id, i) && (Delivers(last, id) ==> front[i].createdAt <= last.createdAt)
    ensures EarliestAt(front + [last], id, i)
  {
  }

  lemma EarliestChanges(front: seq<Email>, last: Email, id: string)
    requires Delivers(last, id) && forall e :: e in front && Delivers(e, id) ==> last.createdAt < e.createdAt
    ensures EarliestAt(front + [last], id, |front|)
  {
  }

  lemma {:induction false} EarliestIs(emails: seq<Email>, id: string) returns (i: int)
    ensures var first := EarliestDelivered(emails, id);
            first.Some? ==> EarliestAt(emails, id, i) && emails[i] == first.value
  {
    i := 0;
    if emails != [] {
      var front, last := emails[..|emails| - 1], emails[|emails| - 1];
      assert emails == front + [last];
      var earlier := EarliestDelivered(front, id);
      i := EarliestIs(front, id);
      if earlier.Some? && (Delivers(last, id) ==> earlier.value.createdAt <= last.createdAt) {
        EarliestStays(front, last, id, i);
      } else if Delivers(last, id) {
        if earlier.Some? { NoneBefore(front, id, i); }
        EarliestChanges(front, last, id);
        i := |front|;
      }
    }
  }

  lemma NoneBefore(emails: seq<Email>, id: string, i: int)
    requires EarliestAt(emails, id, i)
    ensures forall e :: e in emails && Delivers(e, id) ==> emails[i].createdAt <= e.createdAt
  {
  }

  /**
   What an acceptance does: the outbox records it, and a delivery event that came before it, the earliest if there are
   several, delivers the notice if that is then deliverable.
   */
  lemma AcceptsExactly(w: World, r: Rows, c: O.Claim, id: string, status: int, now: Time)
    requires Inv(w, r)
    ensures var recorded, result := O.RecordAccepted(r.box, c, id, status, now), AcceptNotice(w, r, c, id, status, now);
            if recorded.Err? then result == Err(recorded.error)
            else
              var r1, first := r.(box := recorded.value), EarliestDelivered(r.emails, id);
              && c.key in r1.box.notices
              && result == Ok(if first.Some? && Deliverable(r1, c.key) then Marked(r1, c.key, first.value) else r1)
  {
    var recorded := O.RecordAccepted(r.box, c, id, status, now);
    OO.AcceptsExactly(r.box, c, id, status, now);
    if recorded.Ok? {
      AcceptedBoxKeeps(w, r, c, id, status, now, recorded.value);
      var r1, first := r.(box := recorded.value), EarliestDelivered(r.emails, id);
      assert HasProviderId(r1, c.key, id);
      if first.Some? { AppliesExactly(w, r1, c.key, first.value); }
    }
  }
}
