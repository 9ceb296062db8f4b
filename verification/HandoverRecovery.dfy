/**
 A crashed delivery or confirmation handler is repaired by running it again: how such a run ends, for every answer.
*/
module HandoverRecovery {
  import opened Prelude
  import opened Orders
  import opened Evidence
  import opened EvidenceInvariant
  import opened FulfillmentHandlers
  import opened FulfillmentInvariant
  import opened FulfillmentRecovery
  import O = Outbox

  /** What the reads of both handlers find on a verified order. */
  lemma ReadsFind(w: World, r: Rows)
    requires Inv(w, r) && VerifiedStage(r.fulfillment)
    ensures Latest(w, r).Ok? && Latest(w, r).value.Some?
    ensures var p := Latest(w, r).value.value;
            && 0 < |r.proofs| == p.version && Some(p.calendarAt) == r.calendarAt && w.valid(r.digest, p.data)
            && p.verification == Projected(r, p.version)
  {
    LatestFacts(w, r);
    LatestIsLast(r.proofs);
  }

  /** What they find for its newest version. */
  lemma EvidenceFound(w: World, r: Rows, version: nat)
    requires Inv(w, r) && VerifiedStage(r.fulfillment)
    ensures if Observed(r, version) then
              && GetVerified(r, version) == Ok(Projected(r, version)) && Projected(r, version).Some?
              && (forall v :: SameEvidence(Projected(r, version), v) <==>
                    && r.verifications[version].block == v.block && r.verifications[version].blockTime == v.blockTime
                    && r.verifications[version].verifiedAt <= v.verifiedAt)
              && Count(r, version) >= 1
            else if version in r.verifications then GetVerified(r, version).Err?
            else GetVerified(r, version) == Ok(None)
  {
    var i := LatestObservation(r.observations, version);
    if i.Some? { assert Agrees(r.verifications, r.observations[i.value]); }
  }

  /** The outbox with the notice about the version's newest count, which is put there once. */
  function WithNotice(r: Rows, kind: O.Kind, version: nat, limits: Limits, clock: Time): O.Box
    requires Observed(r, version)
  {
    var key := O.NoticeKey(kind, version, r.ref);
    if key in r.box.notices then r.box
    else
      O.Insert(r.box, key, Count(r, version), LatestObservation(r.observations, version).value, clock, limits.horizon,
               limits.maxAttempts)
  }

  /** A notice that is already there was built from evidence of the same block. */
  lemma SameNotice(w: World, r: Rows, kind: O.Kind, version: nat)
    requires Inv(w, r) && KeyOf(r, kind, version) in r.box.notices && Observed(r, version)
    ensures SameMessage(r, KeyOf(r, kind, version), r.observations[LatestObservation(r.observations, version).value])
  {
    var key := KeyOf(r, kind, version);
    assert NoticeBound(r.ref, key, r.box.notices[key].row, r.observations, r.emails);
    assert Agrees(r.verifications, r.observations[r.box.notices[key].row.observation]);
    assert Agrees(r.verifications, r.observations[LatestObservation(r.observations, version).value]);
  }

  predicate FitsColumn(n: int) { 1 <= n <= 2_147_483_647 }

  /** The newest count of the newest version can always be announced, again too, if it reaches the threshold. */
  lemma Announces(w: World, limits: Limits, r: Rows, clock: Time, kind: O.Kind, version: nat, n: int)
    requires Inv(w, r) && 0 < |r.proofs| == version && Observed(r, version)
    ensures var sent := EnqueueNotice(r, kind, version, n, clock, limits.horizon, limits.maxAttempts);
            if FitsColumn(version) && FitsColumn(n) && O.Threshold(kind) <= n == Count(r, version)
            then sent == Ok(r.(box := WithNotice(r, kind, version, limits, clock)))
            else sent.Err?
  {
    LatestIsLast(r.proofs);
    assert Agrees(r.verifications, r.observations[LatestObservation(r.observations, version).value]);
    if KeyOf(r, kind, version) in r.box.notices { SameNotice(w, r, kind, version); }
  }

  // ---------------------------------------------------------------- delivery

  /** The bundler's answer fits the table and is the bundle already stored for the version, if one is. */
  predicate GoodBundle(w: World, r: Rows, version: nat, data: bytes) {
    && 1 <= |data| <= 12 * 1024 * 1024 && w.bundleSafe(data)
    && (version in r.bundles ==> r.bundles[version].data == data)
  }

  /** The order with the version's bundle and its checksum. */
  function WithBundle(w: World, r: Rows, version: nat, data: bytes): Rows {
    r.(bundles := r.bundles[version := Bundle(data, w.sha(data))])
  }

  /**
   How a delivery handler that meets no other thread ends.  Without observed evidence of the newest version it is
   reviewed or raises.  Then the bundler's answer decides: the thread waits for it, raises its refusal or a bundle that
   does not fit, and otherwise stores the bundle and puts the initial notice into the outbox.
   */
  ghost predicate DeliveryOutcome(w: World, limits: Limits, r: Rows, clock: Time, o: Outside, r': Rows, t': Thread) {
    var version := |r.proofs|;
    if r.fulfillment !in {BitcoinVerified, Delivered} then r' == r && t' == Ended(Review("delivery_state_invalid"))
    else if version !in r.verifications then r' == r && t' == Ended(Review("delivery_verification_metadata_missing"))
    else if !Observed(r, version) then r' == r && t'.Ended? && t'.end.Raised?
    else
      match o.bundler
      case Zip(data) =>
        if !GoodBundle(w, r, version, data) then r' == r && t'.Ended? && t'.end.Raised?
        else if !FitsColumn(version) || !FitsColumn(Count(r, version)) then
          r' == WithBundle(w, r, version, data) && t'.Ended? && t'.end.Raised?
        else
          && r' == WithBundle(w, r, version, data).(box := WithNotice(r, O.Initial, version, limits, clock))
          && t' == Ended(Done)
      case ZipRefused(e) => r' == r && t' == Ended(Raised(e))
      case _ => r' == r && t'.InDelivery? && t'.delivery.DeliverBuild? && t'.delivery.confirmations == Count(r, version)
  }

  ghost predicate RunsDelivered(w: World, limits: Limits, r: Rows, clock: Time, t: Thread, o: Outside, n: nat) {
    var (r', t') := Solo(w, limits, r, clock, t, o, n);
    DeliveryOutcome(w, limits, r, clock, o, r', t')
  }

  lemma Bundles(w: World, r: Rows, version: nat, data: bytes)
    requires Inv(w, r) && 0 < |r.proofs| == version
    ensures var put := PutBundle(w, r, version, data);
            if GoodBundle(w, r, version, data) then
              put == Ok(WithBundle(w, r, version, data)) && Inv(w, WithBundle(w, r, version, data))
            else put.Err?
  {
    ProofIsFound(r.proofs, version);
    var put := PutBundle(w, r, version, data);
    if put.Ok? {
      PutBundleKeeps(w, r, version, data, put.value);
      assert version in r.bundles ==> r.bundles[version := Bundle(data, w.sha(data))] == r.bundles;
    }
  }

  /** From the bundle on. */
  lemma DeliverPuts(w: World, limits: Limits, r: Rows, clock: Time, version: nat, data: bytes, o: Outside, n: nat)
    returns (r': Rows, end: End)
    requires Inv(w, r) && 0 < |r.proofs| == version && Observed(r, version) && Count(r, version) >= 1 && n >= 2
    ensures Ends(w, limits, r, clock, InDelivery(DeliverPut(version, Count(r, version), data)), o, n, r', end)
    ensures if !GoodBundle(w, r, version, data) then r' == r && end.Raised?
            else if !FitsColumn(version) || !FitsColumn(Count(r, version)) then
              r' == WithBundle(w, r, version, data) && end.Raised?
            else
              && r' == WithBundle(w, r, version, data).(box := WithNotice(r, O.Initial, version, limits, clock))
              && end == Done
  {
    var count := Count(r, version);
    var t := InDelivery(DeliverPut(version, count, data));
    Bundles(w, r, version, data);
    if GoodBundle(w, r, version, data) {
      var r1 := WithBundle(w, r, version, data);
      Announces(w, limits, r1, clock, O.Initial, version, count);
      var sent := EnqueueNotice(r1, O.Initial, version, count, clock, limits.horizon, limits.maxAttempts);
      r' := if sent.Ok? then sent.value else r1;
      end := if sent.Ok? then Done else Raised(sent.error);
      Last(w, limits, r1, clock, InDelivery(DeliverEnqueue(version, count)), o, n - 1, r', end);
      Before(w, limits, r, clock, t, o, n, r1, InDelivery(DeliverEnqueue(version, count)), r', end);
    } else {
      r', end := r, Raised(PutBundle(w, r, version, data).error);
      Last(w, limits, r, clock, t, o, n, r, end);
    }
  }

  /** Without an answer of the bundler the thread stays where it is. */
  lemma {:induction false} DeliverWaits(w: World, limits: Limits, r: Rows, clock: Time, t: Thread, o: Outside, n: nat)
    requires t.InDelivery? && t.delivery.DeliverBuild? && !o.bundler.Zip? && !o.bundler.ZipRefused?
    ensures Solo(w, limits, r, clock, t, o, n) == (r, t)
    decreases n
  {
    if n > 0 {
      SoloStep(w, limits, r, clock, t, o, n, r, t);
      DeliverWaits(w, limits, r, clock, t, o, n - 1);
    }
  }

  lemma DeliverBuilds(w: World, limits: Limits, r: Rows, clock: Time, p: StoredProof, o: Outside, n: nat)
    requires Inv(w, r) && VerifiedStage(r.fulfillment) && 0 < |r.proofs| == p.version && Observed(r, p.version)
             && n >= 3
    ensures RunsDelivered(w, limits, r, clock, InDelivery(DeliverBuild(p, Count(r, p.version))), o, n)
  {
    EvidenceFound(w, r, p.version);
    var count := Count(r, p.version);
    var t := InDelivery(DeliverBuild(p, count));
    match o.bundler
    case Zip(data) =>
      var r', end := DeliverPuts(w, limits, r, clock, p.version, data, o, n - 1);
      Before(w, limits, r, clock, t, o, n, r, InDelivery(DeliverPut(p.version, count, data)), r', end);
    case ZipRefused(e) => Last(w, limits, r, clock, t, o, n, r, Raised(e));
    case _ => DeliverWaits(w, limits, r, clock, t, o, n);
  }

  /** What the stored evidence leads to. */
  lemma ChecksTo(w: World, limits: Limits, r: Rows, clock: Time, p: StoredProof, o: Outside, n: nat)
    requires Inv(w, r) && VerifiedStage(r.fulfillment) && 0 < |r.proofs| == p.version && n >= 2
    requires p.verification == Projected(r, p.version) && Observed(r, p.version)
    ensures Solo(w, limits, r, clock, InDelivery(DeliverCheck(p)), o, n)
         == Solo(w, limits, r, clock, InDelivery(DeliverBuild(p, Count(r, p.version))), o, n - 2)
  {
    EvidenceFound(w, r, p.version);
    var t1 := InDelivery(DeliverObservation(p));
    SoloStep(w, limits, r, clock, InDelivery(DeliverCheck(p)), o, n, r, t1);
    SoloStep(w, limits, r, clock, t1, o, n - 1, r, InDelivery(DeliverBuild(p, Count(r, p.version))));
  }

  lemma ChecksBadly(w: World, limits: Limits, r: Rows, clock: Time, p: StoredProof, o: Outside, n: nat)
    requires Inv(w, r) && VerifiedStage(r.fulfillment) && 0 < |r.proofs| == p.version && !Observed(r, p.version)
    requires n >= 1
    ensures RunsDelivered(w, limits, r, clock, InDelivery(DeliverCheck(p)), o, n)
  {
    EvidenceFound(w, r, p.version);
    var end := DeliverAct(w, limits, r, clock, DeliverCheck(p), o.bundler).1.end;
    Last(w, limits, r, clock, InDelivery(DeliverCheck(p)), o, n, r, end);
  }

  lemma DeliverChecks(w: World, limits: Limits, r: Rows, clock: Time, p: StoredProof, o: Outside, n: nat)
    requires Inv(w, r) && VerifiedStage(r.fulfillment) && 0 < |r.proofs| == p.version && n >= 5
    requires p.verification == Projected(r, p.version)
    ensures RunsDelivered(w, limits, r, clock, InDelivery(DeliverCheck(p)), o, n)
  {
    if Observed(r, p.version) {
      ChecksTo(w, limits, r, clock, p, o, n);
      DeliverBuilds(w, limits, r, clock, p, o, n - 2);
    } else {
      ChecksBadly(w, limits, r, clock, p, o, n);
    }
  }

  /** From every reachable order: how one more delivery ends, for every answer of the bundler. */
  lemma DeliverRecovers(w: World, limits: Limits, r: Rows, clock: Time, o: Outside, n: nat)
    requires Inv(w, r) && n >= 7
    ensures var (r', t') := Solo(w, limits, r, clock, InDelivery(DeliverLoad), o, n);
            DeliveryOutcome(w, limits, r, clock, o, r', t')
  {
    var t := InDelivery(DeliverLoad);
    if VerifiedStage(r.fulfillment) {
      ReadsFind(w, r);
      var p := Latest(w, r).value.value;
      SoloStep(w, limits, r, clock, t, o, n, r, InDelivery(DeliverRead(Load(r))));
      SoloStep(w, limits, r, clock, InDelivery(DeliverRead(Load(r))), o, n - 1, r, InDelivery(DeliverCheck(p)));
      DeliverChecks(w, limits, r, clock, p, o, n - 2);
    } else {
      Last(w, limits, r, clock, t, o, n, r, Review("delivery_state_invalid"));
    }
  }

  // ---------------------------------------------------------------- confirmation

  /** The newest count afterwards: an observation stored before, or one older than the newest, does not change it. */
  function CountAfter(w: World, r: Rows, v: Verification): int
    requires Observed(r, |r.proofs|)
  {
    var newest := r.observations[LatestObservation(r.observations, |r.proofs|).value];
    var stored := FindObservation(r.observations, ObservationOf(w, |r.proofs|, v).key);
    if stored.None? && newest.observedAt <= v.verifiedAt then v.confirmations else newest.confirmations
  }

  /** The count reaches the threshold of the final notice, fits its column, and is the newest. */
  predicate IsFinal(w: World, r: Rows, v: Verification)
    requires Observed(r, |r.proofs|)
  { 6 <= v.confirmations == CountAfter(w, r, v) && FitsColumn(v.confirmations) && FitsColumn(|r.proofs|) }

  /** The order once a fitting result is recorded. */
  function Recording(w: World, r: Rows, v: Verification): (r': Rows)
    requires Observed(r, |r.proofs|)
    ensures Observed(r', |r.proofs|)
  {
    var r' := r.(observations := WithObservation(w, r, |r.proofs|, v));
    assert r'.observations[..|r.observations|] == r.observations;
    r'
  }

  /**
   How a confirmed result is taken on an order with observed evidence: a contradiction, or fewer confirmations than
   before, is reviewed; the rest is recorded, and then too few confirmations are waited on, the newest count is
   announced once, and a count that cannot be announced raises.
   */
  ghost predicate ConfirmedOutcome(w: World, limits: Limits, r: Rows, clock: Time, v: Verification, r': Rows, end: End)
    requires Observed(r, |r.proofs|)
  {
    if v.confirmations < 1 then r' == r && end.Raised?
    else if !SameEvidenceAs(r, v) then r' == r && end == Review("bitcoin_reverification_metadata_conflict")
    else if v.confirmations < Count(r, |r.proofs|) then r' == r && end == Review("bitcoin_confirmation_count_decreased")
    else if !SameObservation(w, r, |r.proofs|, v) then r' == r && end.Raised?
    else if v.confirmations < 6 then
      r' == Recording(w, r, v) && end == NotYet("bitcoin_final_confirmation_pending")
    else if !IsFinal(w, r, v) then r' == Recording(w, r, v) && end.Raised?
    else
      var r1 := Recording(w, r, v);
      r' == r1.(box := WithNotice(r1, O.Final, |r.proofs|, limits, clock)) && end == Done
  }

  /** How a confirmation handler that meets no other thread ends, for every answer of the verifier. */
  ghost predicate ConfirmationOutcome(w: World, limits: Limits, r: Rows, clock: Time, o: Outside, r': Rows, end: End) {
    var version := |r.proofs|;
    if r.fulfillment !in {BitcoinVerified, Delivered} then r' == r
       && end == Review("confirmation_monitor_state_invalid")
    else if version !in r.verifications then r' == r && end == Review("confirmation_monitor_evidence_missing")
    else if !Observed(r, version) then r' == r && end.Raised?
    else
      match o.bitcoin
      case BitcoinUnconfirmed => r' == r && end == Review("bitcoin_confirmation_lost")
      case BitcoinInvalid => r' == r && end == Review("bitcoin_evidence_invalid")
      case BitcoinConfirmed(_, _, _) => ConfirmedOutcome(w, limits, r, clock, ResultNow(clock, o), r', end)
      case _ => r' == r && end == RetryLater("bitcoin_verifier_unavailable")
  }

  /** A new observation that no other postdates is the newest. */
  lemma NewestIsLast(observations: seq<Observation>, o: Observation)
    requires forall i :: 0 <= i < |observations| && observations[i].version == o.version ==>
               observations[i].observedAt <= o.observedAt
    ensures LatestObservation(observations + [o], o.version) == Some(|observations|)
  {
    assert (observations + [o])[..|observations|] == observations;
  }

  /** The newest count of the tables afterwards is `CountAfter`. */
  lemma CountsAfter(w: World, r: Rows, v: Verification)
    requires Observed(r, |r.proofs|)
    ensures Count(Recording(w, r, v), |r.proofs|) == CountAfter(w, r, v)
  {
    var after := WithObservation(w, r, |r.proofs|, v);
    assert after[..|r.observations|] == r.observations;
  }

  /** A result at the threshold, once recorded. */
  lemma ConfirmEnqueues(w: World, limits: Limits, r: Rows, clock: Time, v: Verification, o: Outside, n: nat)
    returns (r': Rows, end: End)
    requires r.proofs != [] && Observed(r, |r.proofs|) && Inv(w, Recording(w, r, v)) && v.confirmations >= 6 && n >= 1
    ensures var r1 := Recording(w, r, v);
            && Ends(w, limits, r1, clock, InConfirmation(ConfirmEnqueue(|r.proofs|, v.confirmations)), o, n, r', end)
            && if IsFinal(w, r, v)
               then r' == r1.(box := WithNotice(r1, O.Final, |r.proofs|, limits, clock)) && end == Done
               else r' == r1 && end.Raised?
  {
    var r1, version := Recording(w, r, v), |r.proofs|;
    CountsAfter(w, r, v);
    Announces(w, limits, r1, clock, O.Final, version, v.confirmations);
    var sent := EnqueueNotice(r1, O.Final, version, v.confirmations, clock, limits.horizon, limits.maxAttempts);
    r' := if sent.Ok? then sent.value else r1;
    end := if sent.Ok? then Done else Raised(sent.error);
    Last(w, limits, r1, clock, InConfirmation(ConfirmEnqueue(version, v.confirmations)), o, n, r', end);
  }

  /** From the observation on. */
  lemma ConfirmObserves(w: World, limits: Limits, r: Rows, clock: Time, v: Verification, o: Outside, n: nat)
    returns (r': Rows, end: End)
    requires Inv(w, r) && r.proofs != [] && Observed(r, |r.proofs|) && n >= 2
    requires SameEvidenceAs(r, v) && 1 <= v.confirmations && Count(r, |r.proofs|) <= v.confirmations
    ensures Ends(w, limits, r, clock, InConfirmation(ConfirmObserve(|r.proofs|, v)), o, n, r', end)
    ensures ConfirmedOutcome(w, limits, r, clock, v, r', end)
  {
    var version := |r.proofs|;
    var t := InConfirmation(ConfirmObserve(version, v));
    Observes(w, r, version, v);
    if !SameObservation(w, r, version, v) {
      r', end := r, Raised(RecordOnce(r, version, ObservedKey(w, version, v), v).error);
      Last(w, limits, r, clock, t, o, n, r, end);
    } else if v.confirmations < 6 {
      r', end := Recording(w, r, v), NotYet("bitcoin_final_confirmation_pending");
      Last(w, limits, r, clock, t, o, n, r', end);
    } else {
      r', end := ConfirmEnqueues(w, limits, r, clock, v, o, n - 1);
      Before(w, limits, r, clock, t, o, n, Recording(w, r, v), InConfirmation(ConfirmEnqueue(version, v.confirmations)),
        r', end);
    }
  }

  /** A result that is not taken over ends the run at once, as does every other answer. */
  lemma ConfirmFails(w: World, limits: Limits, r: Rows, clock: Time, p: StoredProof, stored: Verification, o: Outside)
    returns (end: End)
    requires Inv(w, r) && VerifiedStage(r.fulfillment) && p.version == |r.proofs| && Observed(r, p.version)
    requires Projected(r, p.version) == Some(stored)
    requires !(&& o.bitcoin.BitcoinConfirmed? && o.bitcoin.confirmations >= 1
               && SameEvidenceAs(r, ResultNow(clock, o)) && Count(r, p.version) <= o.bitcoin.confirmations)
    ensures ConfirmAct(w, limits, r, clock, ConfirmAsk(p, stored, Count(r, p.version)), o.bitcoin) == (r, Ended(end))
    ensures ConfirmationOutcome(w, limits, r, clock, o, r, end)
  {
    EvidenceFound(w, r, p.version);
    end := ConfirmAct(w, limits, r, clock, ConfirmAsk(p, stored, Count(r, p.version)), o.bitcoin).1.end;
  }

  /** From the question to the verifier on. */
  lemma ConfirmAsks(w: World, limits: Limits, r: Rows, clock: Time, p: StoredProof, stored: Verification, o: Outside,
                    n: nat)
    returns (r': Rows, end: End)
    requires Inv(w, r) && VerifiedStage(r.fulfillment) && 0 < |r.proofs| == p.version && Observed(r, p.version)
    requires Projected(r, p.version) == Some(stored) && n >= 3
    ensures Ends(w, limits, r, clock, InConfirmation(ConfirmAsk(p, stored, Count(r, p.version))), o, n, r', end)
    ensures ConfirmationOutcome(w, limits, r, clock, o, r', end)
  {
    var t := InConfirmation(ConfirmAsk(p, stored, Count(r, p.version)));
    if && o.bitcoin.BitcoinConfirmed? && o.bitcoin.confirmations >= 1
       && SameEvidenceAs(r, ResultNow(clock, o)) && Count(r, p.version) <= o.bitcoin.confirmations
    {
      EvidenceFound(w, r, p.version);
      var v := ResultNow(clock, o);
      r', end := ConfirmObserves(w, limits, r, clock, v, o, n - 1);
      Before(w, limits, r, clock, t, o, n, r, InConfirmation(ConfirmObserve(p.version, v)), r', end);
    } else {
      r' := r;
      end := ConfirmFails(w, limits, r, clock, p, stored, o);
      Last(w, limits, r, clock, t, o, n, r, end);
    }
  }

  /** The two reads before the question. */
  lemma ConfirmReads(w: World, limits: Limits, r: Rows, clock: Time, p: StoredProof, o: Outside, n: nat)
    returns (r': Rows, end: End)
    requires Inv(w, r) && VerifiedStage(r.fulfillment) && 0 < |r.proofs| == p.version && n >= 5
    ensures Ends(w, limits, r, clock, InConfirmation(ConfirmStored(p)), o, n, r', end)
    ensures ConfirmationOutcome(w, limits, r, clock, o, r', end)
  {
    EvidenceFound(w, r, p.version);
    var t := InConfirmation(ConfirmStored(p));
    if Observed(r, p.version) {
      var stored := Projected(r, p.version).value;
      var t1 := InConfirmation(ConfirmPrevious(p, stored));
      var t2 := InConfirmation(ConfirmAsk(p, stored, Count(r, p.version)));
      r', end := ConfirmAsks(w, limits, r, clock, p, stored, o, n - 2);
      Before(w, limits, r, clock, t1, o, n - 1, r, t2, r', end);
      Before(w, limits, r, clock, t, o, n, r, t1, r', end);
    } else {
      r', end := r, ConfirmAct(w, limits, r, clock, t.confirmation, o.bitcoin).1.end;
      Last(w, limits, r, clock, t, o, n, r, end);
    }
  }

  /** From every reachable order: how one more confirmation run ends, for every answer of the verifier. */
  lemma ConfirmRecovers(w: World, limits: Limits, r: Rows, clock: Time, o: Outside, n: nat)
    requires Inv(w, r) && n >= 7
    ensures var (r', t') := Solo(w, limits, r, clock, InConfirmation(ConfirmLoad), o, n);
            t'.Ended? && ConfirmationOutcome(w, limits, r, clock, o, r', t'.end)
  {
    var t := InConfirmation(ConfirmLoad);
    if VerifiedStage(r.fulfillment) {
      ReadsFind(w, r);
      var p := Latest(w, r).value.value;
      var r', end := ConfirmReads(w, limits, r, clock, p, o, n - 2);
      Before(w, limits, r, clock, InConfirmation(ConfirmRead), o, n - 1, r, InConfirmation(ConfirmStored(p)), r', end);
      Before(w, limits, r, clock, t, o, n, r, InConfirmation(ConfirmRead), r', end);
    } else {
      Last(w, limits, r, clock, t, o, n, r, Review("confirmation_monitor_state_invalid"));
    }
  }
}
