/**
 The four handlers as the worker calls them: one method each, calling the repositories in order.
 Run without interference, each behaves as its thread does.
 */
module HandlerMethods {
  import opened Prelude
  import opened Orders
  import opened Evidence
  import opened EvidenceStore
  import opened FulfillmentHandlers
  import opened FulfillmentRecovery
  import O = Outbox

  /** One more step of a solo run, then the end of it. */
  lemma Unroll(w: World, limits: Limits, r: Rows, clock: Time, t: Thread, o: Outside, n: nat)
    requires n > 0
    ensures var (r', t') := Act(w, limits, r, clock, t, Answer(t, o));
            Solo(w, limits, r, clock, t, o, n) == Solo(w, limits, r', clock, t', o, n - 1)
            && (t'.Ended? ==> Solo(w, limits, r, clock, t, o, n) == (r', t'))
  {
    var (r', t') := Act(w, limits, r, clock, t, Answer(t, o));
    if t'.Ended? { SoloEnded(w, limits, r', clock, t'.end, o, n - 1); }
  }

  class Handlers {
    const w: World
    const limits: Limits
    const store: SqlFulfillmentStore

    constructor (w: World, limits: Limits, store: SqlFulfillmentStore)
      ensures this.w == w && this.limits == limits && this.store == store
    {
      this.w, this.limits, this.store := w, limits, store;
    }

    /** What the thread `t` does alone from the rows `r`. */
    ghost function Alone(r: Rows, clock: Time, t: Thread, o: Outside, n: nat): (Rows, Thread) {
      Solo(w, limits, r, clock, t, o, n)
    }

    // -------------------------------------------------------------- stamp

    method Stamp(clock: Time, o: Outside) returns (end: End)
      modifies store
      ensures (store.Contents(), Ended(end)) == Alone(old(store.Contents()), clock, InStamp(StampLoad), o, 9)
    {
      ghost var r := store.Contents();
      var order := Load(store.Contents());
      Unroll(w, limits, r, clock, InStamp(StampLoad), o, 9);
      var read := Latest(w, store.Contents());
      Unroll(w, limits, r, clock, InStamp(StampRead(order)), o, 8);
      if read.Err? { return Raised(read.error); }
      var next := StampAfterRead(w, store.Contents(), order, read.value);
      if next.Ended? { return next.end; }
      if next.stamp.StampReplayStart? {
        var version, at := next.stamp.version, next.stamp.at;
        Unroll(w, limits, r, clock, next, o, 7);
        var error := store.TransitionFulfillmentOnce(Stamping, ReplayStart(version), Some(at));
        if error.Some? { return Raised(error.value); }
        end := StampReplay(clock, version, at, o, 6);
      } else if next.stamp.StampReplayEnd? {
        end := StampReplay(clock, next.stamp.version, next.stamp.at, o, 7);
      } else if next.stamp.StampStarting? {
        Unroll(w, limits, r, clock, next, o, 7);
        var error := store.TransitionFulfillmentOnce(Stamping, StampStart, None);
        if error.Some? { return Raised(error.value); }
        if store.fulfillment != Stamping { return Review("stamp_state_invalid"); }
        end := StampNew(clock, o, 6);
      } else {
        end := StampNew(clock, o, 7);
      }
    }

    method StampReplay(clock: Time, version: nat, at: Time, o: Outside, ghost n: nat) returns (end: End)
      requires n > 0
      modifies store
      ensures (store.Contents(), Ended(end))
              == Alone(old(store.Contents()), clock, InStamp(StampReplayEnd(version, at)), o, n)
    {
      Unroll(w, limits, store.Contents(), clock, InStamp(StampReplayEnd(version, at)), o, n);
      var error := store.TransitionFulfillmentOnce(CalendarPending, EventKey.StampReplay(version), Some(at));
      end := if error.Some? then Raised(error.value) else Done;
    }

    method StampNew(clock: Time, o: Outside, ghost n: nat) returns (end: End)
      requires n >= 5
      modifies store
      ensures (store.Contents(), Ended(end)) == Alone(old(store.Contents()), clock, InStamp(StampSubmit), o, n)
    {
      Unroll(w, limits, store.Contents(), clock, InStamp(StampSubmit), o, n);
      if o.calendar.CalendarProofInvalid? { return Review("calendar_proof_invalid"); }
      if !o.calendar.CalendarProof? { return RetryLater("calendar_submit_unavailable"); }
      if !w.valid(store.digest, o.calendar.data) { return Review("calendar_proof_invalid"); }
      var stored := SealedProof(w, store.Contents(), 1, o.calendar.data, clock);
      end := StampStore(clock, stored, o, n - 1);
    }

    method StampStore(clock: Time, stored: StoredProof, o: Outside, ghost n: nat) returns (end: End)
      requires n >= 4
      modifies store
      ensures (store.Contents(), Ended(end)) == Alone(old(store.Contents()), clock, InStamp(StampAppend(stored)), o, n)
    {
      Unroll(w, limits, store.Contents(), clock, InStamp(StampAppend(stored)), o, n);
      var refused := store.AppendProof(w, stored);
      if refused.Some? {
        end := StampConflicting(clock, stored, o, n - 1);
      } else {
        end := StampPersisting(clock, stored.calendarAt, o, n - 1);
      }
    }

    /** Another stamp stored its proof first: the same bytes are as good. */
    method StampConflicting(clock: Time, stored: StoredProof, o: Outside, ghost n: nat) returns (end: End)
      requires n >= 3
      modifies store
      ensures (store.Contents(), Ended(end))
           == Alone(old(store.Contents()), clock, InStamp(StampConflict(stored)), o, n)
    {
      Unroll(w, limits, store.Contents(), clock, InStamp(StampConflict(stored)), o, n);
      var replay := Latest(w, store.Contents());
      if replay.Err? { return Raised(replay.error); }
      if replay.value != Some(stored) { return Review("proof_append_conflict"); }
      end := StampPersisting(clock, stored.calendarAt, o, n - 1);
    }

    method StampPersisting(clock: Time, at: Time, o: Outside, ghost n: nat) returns (end: End)
      requires n >= 2
      modifies store
      ensures (store.Contents(), Ended(end)) == Alone(old(store.Contents()), clock, InStamp(StampRespond(at)), o, n)
    {
      Unroll(w, limits, store.Contents(), clock, InStamp(StampRespond(at)), o, n);
      var error := store.TransitionFulfillmentOnce(Stamping, StampResponse, Some(at));
      if error.Some? { return Raised(error.value); }
      Unroll(w, limits, store.Contents(), clock, InStamp(StampPersist(at)), o, n - 1);
      error := store.TransitionFulfillmentOnce(CalendarPending, StampPersisted, Some(at));
      end := if error.Some? then Raised(error.value) else Done;
    }

    // -------------------------------------------------------------- upgrade

    method Upgrade(clock: Time, o: Outside) returns (end: End)
      modifies store
      ensures (store.Contents(), Ended(end)) == Alone(old(store.Contents()), clock, InUpgrade(UpgradeLoad), o, 9)
    {
      ghost var r := store.Contents();
      var order := Load(store.Contents());
      Unroll(w, limits, r, clock, InUpgrade(UpgradeLoad), o, 9);
      var read := Latest(w, store.Contents());
      Unroll(w, limits, r, clock, InUpgrade(UpgradeRead(order)), o, 8);
      if read.Err? { return Raised(read.error); }
      var next := UpgradeAfterRead(w, store.Contents(), order, read.value);
      if next.Ended? { return next.end; }
      if next.InReverify? {
        end := Reverify(clock, next.state, next.reverify.proof, o, 7);
      } else {
        end := UpgradeProof(clock, next.upgrade.proof, o, 7);
      }
    }

    method UpgradeProof(clock: Time, latest: StoredProof, o: Outside, ghost n: nat) returns (end: End)
      requires n >= 7
      modifies store
      ensures (store.Contents(), Ended(end))
              == Alone(old(store.Contents()), clock, InUpgrade(UpgradeSubmit(latest)), o, n)
    {
      Unroll(w, limits, store.Contents(), clock, InUpgrade(UpgradeSubmit(latest)), o, n);
      if o.calendar.CalendarProofInvalid? { return Review("upgraded_proof_invalid"); }
      if !o.calendar.CalendarProof? { return RetryLater("calendar_upgrade_unavailable"); }
      if !w.valid(store.digest, o.calendar.data) { return Review("upgraded_proof_invalid"); }
      if o.calendar.data == latest.data {
        end := VerifyProof(clock, latest, o, n - 1);
        return;
      }
      var upgraded := SealedProof(w, store.Contents(), latest.version + 1, o.calendar.data, latest.calendarAt);
      Unroll(w, limits, store.Contents(), clock, InUpgrade(UpgradeAppend(upgraded)), o, n - 1);
      var refused := store.AppendProof(w, upgraded);
      if refused.Some? {
        Unroll(w, limits, store.Contents(), clock, InUpgrade(UpgradeConflict(upgraded)), o, n - 2);
        var replay := Latest(w, store.Contents());
        if replay.Err? { return Raised(replay.error); }
        if replay.value != Some(upgraded) { return Review("proof_append_conflict"); }
        end := VerifyProof(clock, upgraded, o, n - 3);
      } else {
        end := VerifyProof(clock, upgraded, o, n - 2);
      }
    }

    method VerifyProof(clock: Time, latest: StoredProof, o: Outside, ghost n: nat) returns (end: End)
      requires n >= 4
      modifies store
      ensures (store.Contents(), Ended(end))
              == Alone(old(store.Contents()), clock, InUpgrade(UpgradeVerify(latest)), o, n)
    {
      Unroll(w, limits, store.Contents(), clock, InUpgrade(UpgradeVerify(latest)), o, n);
      var verdict := Ask(clock, o.bitcoin);
      if verdict.Failing? { return verdict.t.end; }
      if verdict.NotVerified? { return NotYet("bitcoin_confirmation_pending"); }
      var version, v := latest.version, verdict.v;
      Unroll(w, limits, store.Contents(), clock, InUpgrade(UpgradePut(version, v)), o, n - 1);
      var error := store.PutVerifiedOnce(version, v);
      if error.Some? { return Raised(error.value); }
      end := ObserveVerified(clock, version, v, o, n - 2);
    }

    method ObserveVerified(clock: Time, version: nat, v: Verification, o: Outside, ghost n: nat) returns (end: End)
      requires n >= 2
      modifies store
      ensures (store.Contents(), Ended(end))
              == Alone(old(store.Contents()), clock, InUpgrade(UpgradeObserve(version, v)), o, n)
    {
      Unroll(w, limits, store.Contents(), clock, InUpgrade(UpgradeObserve(version, v)), o, n);
      var recorded := store.RecordObservationOnce(version, ObservedKey(w, version, v), v);
      if recorded.Err? { return Raised(recorded.error); }
      Unroll(w, limits, store.Contents(), clock, InUpgrade(UpgradeFinish(version)), o, n - 1);
      var error := store.TransitionFulfillmentOnce(BitcoinVerified, BitcoinVerifiedKey(version), None);
      end := if error.Some? then Raised(error.value) else Done;
    }

    method Reverify(clock: Time, state: Fulfillment, latest: StoredProof, o: Outside, ghost n: nat) returns (end: End)
      requires n >= 3
      modifies store
      ensures (store.Contents(), Ended(end))
              == Alone(old(store.Contents()), clock, InReverify(state, ReverifyAsk(latest)), o, n)
    {
      Unroll(w, limits, store.Contents(), clock, InReverify(state, ReverifyAsk(latest)), o, n);
      var verdict := Ask(clock, o.bitcoin);
      if verdict.Failing? { return verdict.t.end; }
      if verdict.NotVerified? { return Review("bitcoin_reverification_failed"); }
      var version, v := latest.version, verdict.v;
      if !SameEvidence(latest.verification, v) { return Review("bitcoin_reverification_metadata_conflict"); }
      Unroll(w, limits, store.Contents(), clock, InReverify(state, ReverifyObserve(version, v)), o, n - 1);
      var recorded := store.RecordObservationOnce(version, ObservedKey(w, version, v), v);
      if recorded.Err? { return Raised(recorded.error); }
      Unroll(w, limits, store.Contents(), clock, InReverify(state, ReverifyFinish(version, v)), o, n - 2);
      var error := store.TransitionFulfillmentOnce(state, ReverifiedKey(version, w.micros(v.verifiedAt)), None);
      end := if error.Some? then Raised(error.value) else Done;
    }

    // -------------------------------------------------------------- delivery

    method Deliver(clock: Time, o: Outside) returns (end: End)
      requires o.bundler.Zip? || o.bundler.ZipRefused?
      modifies store
      ensures (store.Contents(), Ended(end)) == Alone(old(store.Contents()), clock, InDelivery(DeliverLoad), o, 7)
    {
      ghost var r := store.Contents();
      Unroll(w, limits, r, clock, InDelivery(DeliverLoad), o, 7);
      var order := Load(store.Contents());
      if !VerifiedStage(order.fulfillment) { return Review("delivery_state_invalid"); }
      if order.calendarAt.None? { return Review("proof_submission_time_missing"); }
      Unroll(w, limits, r, clock, InDelivery(DeliverRead(order)), o, 6);
      var read := Latest(w, store.Contents());
      if read.Err? { return Raised(read.error); }
      if read.value.None? { return Review("proof_missing"); }
      var proof := read.value.value;
      if Some(proof.calendarAt) != order.calendarAt { return Review("proof_submission_time_conflict"); }
      Unroll(w, limits, r, clock, InDelivery(DeliverCheck(proof)), o, 5);
      var stored := GetVerified(store.Contents(), proof.version);
      if stored.Err? { return Raised(stored.error); }
      if stored.value.None? { return Review("delivery_verification_metadata_missing"); }
      if proof.verification != stored.value { return Review("delivery_proof_metadata_mismatch"); }
      end := DeliverBundle(clock, proof, o, 4);
    }

    method DeliverBundle(clock: Time, proof: StoredProof, o: Outside, ghost n: nat) returns (end: End)
      requires (o.bundler.Zip? || o.bundler.ZipRefused?) && n >= 4
      modifies store
      ensures (store.Contents(), Ended(end))
              == Alone(old(store.Contents()), clock, InDelivery(DeliverObservation(proof)), o, n)
    {
      Unroll(w, limits, store.Contents(), clock, InDelivery(DeliverObservation(proof)), o, n);
      var latest := LatestObservation(store.observations, proof.version);
      if latest.None? || store.observations[latest.value].confirmations < 1 {
        return Review("delivery_confirmation_observation_missing");
      }
      var confirmations := store.observations[latest.value].confirmations;
      Unroll(w, limits, store.Contents(), clock, InDelivery(DeliverBuild(proof, confirmations)), o, n - 1);
      if o.bundler.ZipRefused? { return Raised(o.bundler.error); }
      end := DeliverStore(clock, proof.version, confirmations, o.bundler.data, o, n - 2);
    }

    method DeliverStore(clock: Time, version: nat, confirmations: int, bundle: bytes, o: Outside, ghost n: nat)
      returns (end: End)
      requires n >= 2
      modifies store
      ensures (store.Contents(), Ended(end))
           == Alone(old(store.Contents()), clock, InDelivery(DeliverPut(version, confirmations, bundle)), o, n)
    {
      Unroll(w, limits, store.Contents(), clock, InDelivery(DeliverPut(version, confirmations, bundle)), o, n);
      var error := store.PutBundleOnce(w, version, bundle);
      if error.Some? { return Raised(error.value); }
      Unroll(w, limits, store.Contents(), clock, InDelivery(DeliverEnqueue(version, confirmations)), o, n - 1);
      error := store.EnqueueMessage(O.Initial, version, confirmations, clock, limits.horizon, limits.maxAttempts);
      end := if error.Some? then Raised(error.value) else Done;
    }

    // -------------------------------------------------------------- confirmation

    method Confirm(clock: Time, o: Outside) returns (end: End)
      modifies store
      ensures (store.Contents(), Ended(end)) == Alone(old(store.Contents()), clock, InConfirmation(ConfirmLoad), o, 7)
    {
      ghost var r := store.Contents();
      Unroll(w, limits, r, clock, InConfirmation(ConfirmLoad), o, 7);
      if !VerifiedStage(store.fulfillment) { return Review("confirmation_monitor_state_invalid"); }
      Unroll(w, limits, r, clock, InConfirmation(ConfirmRead), o, 6);
      var read := Latest(w, store.Contents());
      if read.Err? { return Raised(read.error); }
      if read.value.None? { return Review("proof_missing"); }
      var proof := read.value.value;
      if !w.valid(store.digest, proof.data) { return Review("stored_proof_invalid"); }
      Unroll(w, limits, r, clock, InConfirmation(ConfirmStored(proof)), o, 5);
      var found := GetVerified(store.Contents(), proof.version);
      if found.Err? { return Raised(found.error); }
      if found.value.None? { return Review("confirmation_monitor_evidence_missing"); }
      Unroll(w, limits, r, clock, InConfirmation(ConfirmPrevious(proof, found.value.value)), o, 4);
      var latest := LatestObservation(store.observations, proof.version);
      if latest.None? { return Review("confirmation_monitor_evidence_missing"); }
      end := ConfirmCurrent(clock, proof, found.value.value, store.observations[latest.value].confirmations, o, 3);
    }

    method ConfirmCurrent(
        clock: Time, proof: StoredProof, stored: Verification, previous: int, o: Outside, ghost n: nat)
      returns (end: End)
      requires n >= 3
      modifies store
      ensures (store.Contents(), Ended(end))
           == Alone(old(store.Contents()), clock, InConfirmation(ConfirmAsk(proof, stored, previous)), o, n)
    {
      Unroll(w, limits, store.Contents(), clock, InConfirmation(ConfirmAsk(proof, stored, previous)), o, n);
      var verdict := Ask(clock, o.bitcoin);
      if verdict.Failing? { return verdict.t.end; }
      if verdict.NotVerified? { return Review("bitcoin_confirmation_lost"); }
      var version, current := proof.version, verdict.v;
      if !SameEvidence(Some(stored), current) { return Review("bitcoin_reverification_metadata_conflict"); }
      if current.confirmations < previous { return Review("bitcoin_confirmation_count_decreased"); }
      end := ConfirmRecord(clock, version, current, o, n - 1);
    }

    method ConfirmRecord(clock: Time, version: nat, current: Verification, o: Outside, ghost n: nat) returns (end: End)
      requires n >= 2
      modifies store
      ensures (store.Contents(), Ended(end))
           == Alone(old(store.Contents()), clock, InConfirmation(ConfirmObserve(version, current)), o, n)
    {
      Unroll(w, limits, store.Contents(), clock, InConfirmation(ConfirmObserve(version, current)), o, n);
      var recorded := store.RecordObservationOnce(version, ObservedKey(w, version, current), current);
      if recorded.Err? { return Raised(recorded.error); }
      if current.confirmations < 6 { return NotYet("bitcoin_final_confirmation_pending"); }
      Unroll(w, limits, store.Contents(), clock, InConfirmation(ConfirmEnqueue(version, current.confirmations)), o,
        n - 1);
      var error := store.EnqueueMessage(O.Final, version, current.confirmations, clock, limits.horizon,
        limits.maxAttempts);
      end := if error.Some? then Raised(error.value) else Done;
    }
  }
}
