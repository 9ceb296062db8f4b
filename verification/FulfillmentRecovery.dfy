/** A crashed stamp or upgrade handler is repaired by running it again: how such a run ends, for every answer. */
module FulfillmentRecovery {
  import opened Prelude
  import opened Orders
  import opened Evidence
  import opened EvidenceInvariant
  import opened FulfillmentHandlers
  import opened FulfillmentInvariant

  /** The answers of the outside world during one handler call. */
  datatype Outside = Outside(calendar: Reply, bitcoin: Reply, bundler: Reply)

  /** The answer that fits where the thread is. */
  function Answer(t: Thread, o: Outside): Reply {
    match t
    case InStamp(_) => o.calendar
    case InUpgrade(p) => if p.UpgradeSubmit? then o.calendar else o.bitcoin
    case InReverify(_, _) => o.bitcoin
    case InDelivery(_) => o.bundler
    case InConfirmation(_) => o.bitcoin
    case Ended(_) => NoReply
  }

  /** A thread that runs alone for `n` steps. */
  function Solo(w: World, limits: Limits, r: Rows, clock: Time, t: Thread, o: Outside, n: nat): (Rows, Thread)
    decreases n
  {
    if n == 0 then (r, t)
    else
      var (r', t') := Act(w, limits, r, clock, t, Answer(t, o));
      Solo(w, limits, r', clock, t', o, n - 1)
  }

  lemma {:induction false} SoloEnded(w: World, limits: Limits, r: Rows, clock: Time, end: End, o: Outside, n: nat)
    ensures Solo(w, limits, r, clock, Ended(end), o, n) == (r, Ended(end))
    decreases n
  {
    if n > 0 { SoloEnded(w, limits, r, clock, end, o, n - 1); }
  }

  /** One step of a thread that runs alone. */
  lemma SoloStep(w: World, limits: Limits, r: Rows, clock: Time, t: Thread, o: Outside, n: nat, r1: Rows, t1: Thread)
    requires n >= 1 && Act(w, limits, r, clock, t, Answer(t, o)) == (r1, t1)
    ensures Solo(w, limits, r, clock, t, o, n) == Solo(w, limits, r1, clock, t1, o, n - 1)
    ensures t1.Ended? ==> Solo(w, limits, r, clock, t, o, n) == (r1, t1)
  {
    if t1.Ended? { SoloEnded(w, limits, r1, clock, t1.end, o, n - 1); }
  }

  /** A thread alone ends with these rows, and returns or raises this. */
  ghost predicate Ends(
      w: World, limits: Limits, r: Rows, clock: Time, t: Thread, o: Outside, n: nat, r': Rows, end: End)
  { Solo(w, limits, r, clock, t, o, n) == (r', Ended(end)) }

  lemma Last(
      w: World, limits: Limits, r: Rows, clock: Time, t: Thread, o: Outside, n: nat, r': Rows, end: End)
    requires n >= 1 && Act(w, limits, r, clock, t, Answer(t, o)) == (r', Ended(end))
    ensures Ends(w, limits, r, clock, t, o, n, r', end)
  {
    SoloStep(w, limits, r, clock, t, o, n, r', Ended(end));
  }

  lemma Before(
      w: World, limits: Limits, r: Rows, clock: Time, t: Thread, o: Outside, n: nat, r1: Rows, t1: Thread, r': Rows,
      end: End)
    requires n >= 1 && Act(w, limits, r, clock, t, Answer(t, o)) == (r1, t1)
    requires Ends(w, limits, r1, clock, t1, o, n - 1, r', end)
    ensures Ends(w, limits, r, clock, t, o, n, r', end)
  {
    SoloStep(w, limits, r, clock, t, o, n, r1, t1);
  }

  /** The next stage can always be entered under its own key: the key cannot be taken yet. */
  lemma EntersNext(w: World, r: Rows, target: Fulfillment, key: EventKey, at: Option<Time>)
    requires Inv(w, r) && r.fulfillment in {Queued, Stamping, CalendarPending}
    requires target in FulfillmentTargets(r.fulfillment) && target != InManualReview
    requires KeyFits(key, target) && !key.ResendDelivered? && MayEnter(r, target)
    requires at.Some? ==> at == r.calendarAt
    ensures var r' := r.(fulfillment := target, events := r.events[key := target]);
            TransitionOnce(r, target, key, at) == Ok(r') && Inv(w, r')
  {
    assert key in r.events ==> EventReached(key, r.events[key], r.fulfillment);
    TransitionKeeps(w, r, target, key, at, r.(fulfillment := target, events := r.events[key := target]));
  }

  // ---------------------------------------------------------------- stamping

  /** The order once stamping has started. */
  function Started(r: Rows): Rows {
    if r.fulfillment == Queued then r.(fulfillment := Stamping, events := r.events[StampStart := Stamping]) else r
  }

  /** The order, being stamped, once its first proof is stored and recorded. */
  function Stamped(w: World, r: Rows, data: bytes, clock: Time): Rows {
    r.(fulfillment := CalendarPending, calendarAt := Some(clock),
       proofs := [ProofRow(1, r.digest, data, w.sha(data), clock)],
       events := r.events[StampResponse := Stamping][StampPersisted := CalendarPending])
  }

  /** The order once its newest stored proof is replayed into the state. */
  function Replayed(r: Rows): Rows {
    var version := |r.proofs|;
    match r.fulfillment
    case Queued =>
      r.(fulfillment := CalendarPending,
         events := r.events[ReplayStart(version) := Stamping][StampReplay(version) := CalendarPending])
    case Stamping =>
      r.(fulfillment := CalendarPending, events := r.events[StampReplay(version) := CalendarPending])
    case _ => r
  }

  /** The calendars answer with something that is no proof of this digest. */
  predicate BadCalendar(w: World, digest: bytes, o: Outside) {
    o.calendar.CalendarProofInvalid? || (o.calendar.CalendarProof? && !w.valid(digest, o.calendar.data))
  }

  /** They answer with a proof of this very digest. */
  predicate SomeCalendar(w: World, digest: bytes, o: Outside) {
    o.calendar.CalendarProof? && w.valid(digest, o.calendar.data)
  }

  predicate FitsTable(data: bytes) { 1 <= |data| <= 262_144 }

  /** A proof that also fits the table. */
  predicate GoodCalendar(w: World, digest: bytes, o: Outside) {
    SomeCalendar(w, digest, o) && FitsTable(o.calendar.data)
  }

  /**
   How a stamp that meets no other thread ends.  A stored proof is replayed, whatever payment and calendars say.
   Without one the order must be paid and being stamped; then an outage is retried, a bad proof is reviewed, and a good
   one is stored.
   */
  ghost predicate StampOutcome(w: World, r: Rows, clock: Time, o: Outside, r': Rows, end: End) {
    if r.proofs != [] then r' == Replayed(r) && end == Done
    else if r.payment != Paid then r' == r && end == Review("initial_stamp_not_paid")
    else if r.fulfillment !in {Queued, Stamping} then r' == r && end == Review("stamp_state_invalid")
    else if BadCalendar(w, r.digest, o) then r' == Started(r) && end == Review("calendar_proof_invalid")
    else if !SomeCalendar(w, r.digest, o) then r' == Started(r) && end == RetryLater("calendar_submit_unavailable")
    else if !FitsTable(o.calendar.data) then r' == Started(r) && end == Review("proof_append_conflict")
    else r' == Stamped(w, Started(r), o.calendar.data, clock) && end == Done
  }

  /** From the response on, the proof being stored. */
  lemma StampFinishes(w: World, limits: Limits, r: Rows, clock: Time, at: Time, o: Outside, n: nat)
    requires Inv(w, r) && r.fulfillment == Stamping && r.calendarAt == Some(at) && n >= 2
    ensures var r' := r.(fulfillment := CalendarPending,
                         events := r.events[StampResponse := Stamping][StampPersisted := CalendarPending]);
            Ends(w, limits, r, clock, InStamp(StampRespond(at)), o, n, r', Done)
  {
    assert StampResponse in r.events ==> EventReached(StampResponse, r.events[StampResponse], r.fulfillment);
    var r1 := r.(events := r.events[StampResponse := Stamping]);
    assert StampResponse in r.events ==> r1 == r;
    assert TransitionOnce(r, Stamping, StampResponse, Some(at)) == Ok(r1);
    TransitionKeeps(w, r, Stamping, StampResponse, Some(at), r1);
    EntersNext(w, r1, CalendarPending, StampPersisted, Some(at));
    var r2 := r1.(fulfillment := CalendarPending, events := r1.events[StampPersisted := CalendarPending]);
    Last(w, limits, r1, clock, InStamp(StampPersist(at)), o, n - 1, r2, Done);
    Before(w, limits, r, clock, InStamp(StampRespond(at)), o, n, r1, InStamp(StampPersist(at)), r2, Done);
  }

  /** The first proof of an order that is being stamped. */
  lemma StampStores(w: World, limits: Limits, r: Rows, clock: Time, o: Outside, n: nat)
    requires Inv(w, r) && r.fulfillment == Stamping && r.proofs == [] && GoodCalendar(w, r.digest, o) && n >= 4
    ensures Ends(w, limits, r, clock, InStamp(StampSubmit), o, n, Stamped(w, r, o.calendar.data, clock), Done)
  {
    var p := SealedProof(w, r, 1, o.calendar.data, clock);
    var r1 := WithProof(r, p, Some(clock));
    assert r1.proofs == [ProofRow(1, r.digest, o.calendar.data, w.sha(o.calendar.data), clock)];
    assert Append(w, r, p) == Ok(r1);
    AppendKeeps(w, r, p, r1);
    StampFinishes(w, limits, r1, clock, clock, o, n - 2);
    var r' := Stamped(w, r, o.calendar.data, clock);
    Before(w, limits, r, clock, InStamp(StampAppend(p)), o, n - 1, r1, InStamp(StampRespond(clock)), r', Done);
    Before(w, limits, r, clock, InStamp(StampSubmit), o, n, r, InStamp(StampAppend(p)), r', Done);
  }

  /** A proof that does not fit the table. */
  lemma StampMisfits(w: World, limits: Limits, r: Rows, clock: Time, o: Outside, n: nat)
    requires Inv(w, r) && r.fulfillment == Stamping && r.proofs == [] && n >= 3
    requires SomeCalendar(w, r.digest, o) && !FitsTable(o.calendar.data)
    ensures Ends(w, limits, r, clock, InStamp(StampSubmit), o, n, r, Review("proof_append_conflict"))
  {
    var p := SealedProof(w, r, 1, o.calendar.data, clock);
    var end := Review("proof_append_conflict");
    Last(w, limits, r, clock, InStamp(StampConflict(p)), o, n - 2, r, end);
    Before(w, limits, r, clock, InStamp(StampAppend(p)), o, n - 1, r, InStamp(StampConflict(p)), r, end);
    Before(w, limits, r, clock, InStamp(StampSubmit), o, n, r, InStamp(StampAppend(p)), r, end);
  }

  /** What asking the calendars leads to. */
  lemma StampSubmits(w: World, limits: Limits, r: Rows, clock: Time, o: Outside, n: nat) returns (r': Rows, end: End)
    requires Inv(w, r) && r.payment == Paid && r.fulfillment == Stamping && r.proofs == [] && n >= 4
    ensures Ends(w, limits, r, clock, InStamp(StampSubmit), o, n, r', end)
    ensures StampOutcome(w, r, clock, o, r', end)
  {
    if GoodCalendar(w, r.digest, o) {
      StampStores(w, limits, r, clock, o, n);
      r', end := Stamped(w, r, o.calendar.data, clock), Done;
    } else if SomeCalendar(w, r.digest, o) {
      StampMisfits(w, limits, r, clock, o, n);
      r', end := r, Review("proof_append_conflict");
    } else {
      r' := r;
      end := if BadCalendar(w, r.digest, o) then Review("calendar_proof_invalid")
             else RetryLater("calendar_submit_unavailable");
      Last(w, limits, r, clock, InStamp(StampSubmit), o, n, r, end);
    }
  }

  /** An order without a proof, from its state on. */
  lemma StampNew(w: World, limits: Limits, r: Rows, clock: Time, o: Outside, n: nat) returns (r': Rows, end: End)
    requires Inv(w, r) && r.payment == Paid && r.fulfillment in {Queued, Stamping} && r.proofs == [] && n >= 5
    ensures Ends(w, limits, r, clock, InStamp(if r.fulfillment == Queued then StampStarting else StampSubmit), o, n, r',
                 end)
    ensures StampOutcome(w, r, clock, o, r', end)
  {
    if r.fulfillment == Stamping {
      r', end := StampSubmits(w, limits, r, clock, o, n);
    } else {
      EntersNext(w, r, Stamping, StampStart, None);
      r', end := StampSubmits(w, limits, Started(r), clock, o, n - 1);
      Before(w, limits, r, clock, InStamp(StampStarting), o, n, Started(r), InStamp(StampSubmit), r', end);
    }
  }

  /** An order that is being stamped and has a proof. */
  lemma StampReplayEnds(w: World, limits: Limits, r: Rows, clock: Time, o: Outside, n: nat)
    requires Inv(w, r) && r.fulfillment == Stamping && |r.proofs| > 0 && n >= 1
    ensures var p := r.proofs[|r.proofs| - 1];
            Ends(w, limits, r, clock, InStamp(StampReplayEnd(p.version, p.calendarAt)), o, n, Replayed(r), Done)
  {
    var p := r.proofs[|r.proofs| - 1];
    EntersNext(w, r, CalendarPending, StampReplay(p.version), Some(p.calendarAt));
    Last(w, limits, r, clock, InStamp(StampReplayEnd(p.version, p.calendarAt)), o, n, Replayed(r), Done);
  }

  lemma StampReplayStarts(w: World, limits: Limits, r: Rows, clock: Time, o: Outside, n: nat)
    requires Inv(w, r) && r.fulfillment == Queued && |r.proofs| > 0 && n >= 2
    ensures var p := r.proofs[|r.proofs| - 1];
            Ends(w, limits, r, clock, InStamp(StampReplayStart(p.version, p.calendarAt)), o, n, Replayed(r), Done)
  {
    var p := r.proofs[|r.proofs| - 1];
    EntersNext(w, r, Stamping, ReplayStart(p.version), Some(p.calendarAt));
    var r1 := r.(fulfillment := Stamping, events := r.events[ReplayStart(p.version) := Stamping]);
    StampReplayEnds(w, limits, r1, clock, o, n - 1);
    Before(w, limits, r, clock, InStamp(StampReplayStart(p.version, p.calendarAt)), o, n, r1,
      InStamp(StampReplayEnd(p.version, p.calendarAt)), Replayed(r), Done);
  }

  /** Where a stamp handler stands after its two reads. */
  function AfterReads(r: Rows): Thread {
    if r.proofs == [] then
      if r.payment != Paid then Ended(Review("initial_stamp_not_paid"))
      else if r.fulfillment == Queued then InStamp(StampStarting)
      else if r.fulfillment == Stamping then InStamp(StampSubmit)
      else Ended(Review("stamp_state_invalid"))
    else
      var p := r.proofs[|r.proofs| - 1];
      if r.fulfillment == Queued then InStamp(StampReplayStart(p.version, p.calendarAt))
      else if r.fulfillment == Stamping then InStamp(StampReplayEnd(p.version, p.calendarAt))
      else Ended(Done)
  }

  lemma StampReadsTo(w: World, r: Rows)
    requires Inv(w, r)
    ensures Latest(w, r).Ok? && StampAfterRead(w, r, Load(r), Latest(w, r).value) == AfterReads(r)
  {
    LatestFacts(w, r);
    LatestIsLast(r.proofs);
  }

  lemma StampFromReads(w: World, limits: Limits, r: Rows, clock: Time, o: Outside, n: nat) returns (r': Rows, end: End)
    requires Inv(w, r) && n >= 5
    ensures if AfterReads(r).Ended? then AfterReads(r) == Ended(end) && r' == r
            else Ends(w, limits, r, clock, AfterReads(r), o, n, r', end)
    ensures StampOutcome(w, r, clock, o, r', end)
  {
    if AfterReads(r).Ended? {
      r', end := r, AfterReads(r).end;
    } else if r.proofs == [] {
      r', end := StampNew(w, limits, r, clock, o, n);
    } else {
      r', end := Replayed(r), Done;
      if r.fulfillment == Queued { StampReplayStarts(w, limits, r, clock, o, n); }
      else { StampReplayEnds(w, limits, r, clock, o, n); }
    }
  }

  /** From every reachable order, wherever earlier handlers were cut off: how one more stamp ends, for every answer. */
  lemma StampRecovers(w: World, limits: Limits, r: Rows, clock: Time, o: Outside, n: nat)
    requires Inv(w, r) && n >= 7
    ensures var (r', t') := Solo(w, limits, r, clock, InStamp(StampLoad), o, n);
            t'.Ended? && StampOutcome(w, r, clock, o, r', t'.end)
  {
    StampReadsTo(w, r);
    var r', end := StampFromReads(w, limits, r, clock, o, n - 2);
    var read := InStamp(StampRead(Load(r)));
    if AfterReads(r).Ended? { Last(w, limits, r, clock, read, o, n - 1, r, end); }
    else { Before(w, limits, r, clock, read, o, n - 1, r, AfterReads(r), r', end); }
    Before(w, limits, r, clock, InStamp(StampLoad), o, n, r, read, r', end);
  }

  // ---------------------------------------------------------------- what the verifier's answer adds

  /** The verifier's answer as a result made now. */
  function ResultNow(clock: Time, o: Outside): Verification
    requires o.bitcoin.BitcoinConfirmed?
  { Verification(o.bitcoin.block, o.bitcoin.blockTime, clock, o.bitcoin.confirmations) }

  /** The row that stands for a result: one per version, count and microsecond. */
  function ObservationOf(w: World, version: nat, v: Verification): Observation {
    Observation(ObservationKey(version, v.confirmations, w.micros(v.verifiedAt)), version, v.block, v.confirmations,
      v.verifiedAt)
  }

  /** What is stored under the row's key, if anything, is this very row. */
  predicate SameObservation(w: World, r: Rows, version: nat, v: Verification) {
    var row := ObservationOf(w, version, v);
    var i := FindObservation(r.observations, row.key);
    i.Some? ==> r.observations[i.value] == row
  }

  /** The observations with this one, which is stored once. */
  function WithObservation(w: World, r: Rows, version: nat, v: Verification): seq<Observation> {
    var row := ObservationOf(w, version, v);
    if FindObservation(r.observations, row.key).None? then r.observations + [row] else r.observations
  }

  /** The version's stored verification, if there is one, is of the same block and time. */
  predicate SameVerification(r: Rows, version: nat, v: Verification) {
    version in r.verifications ==>
      r.verifications[version].block == v.block && r.verifications[version].blockTime == v.blockTime
  }

  /** The verifications with this one; the first of a version stays. */
  function WithVerification(r: Rows, version: nat, v: Verification): map<nat, VerificationRow> {
    if version in r.verifications then r.verifications
    else r.verifications[version := VerificationRow(v.block, v.blockTime, v.verifiedAt)]
  }

  /** The version has a verification and an observation. */
  predicate Observed(r: Rows, version: nat) {
    version in r.verifications && LatestObservation(r.observations, version).Some?
  }

  /** The version's newest confirmation count. */
  function Count(r: Rows, version: nat): int
    requires Observed(r, version)
  { r.observations[LatestObservation(r.observations, version).value].confirmations }

  /** Recording a result that has the version's verification and contradicts nothing stored. */
  lemma Observes(w: World, r: Rows, version: nat, v: Verification)
    requires Inv(w, r) && 0 < |r.proofs| == version && v.confirmations >= 1
    requires version in r.verifications && SameVerification(r, version, v)
    ensures var recorded := RecordOnce(r, version, ObservedKey(w, version, v), v);
            if SameObservation(w, r, version, v) then
              recorded.Ok? && recorded.value.rows == r.(observations := WithObservation(w, r, version, v))
            else recorded.Err?
    ensures SameObservation(w, r, version, v) ==>
              var r' := r.(observations := WithObservation(w, r, version, v));
              Inv(w, r') && Confirmed(r'.verifications, r'.observations, version)
  {
    LatestIsLast(r.proofs);
    var recorded := RecordOnce(r, version, ObservedKey(w, version, v), v);
    if recorded.Ok? {
      RecordOnceKeeps(w, r, version, ObservedKey(w, version, v), v, recorded.value.rows, recorded.value.row);
    }
  }

  lemma Puts(w: World, r: Rows, version: nat, v: Verification)
    requires Inv(w, r) && 0 < |r.proofs| == version && AfterCalendar(r, v) && v.confirmations >= 1
    ensures var put := PutVerified(r, version, v);
            var r' := r.(verifications := WithVerification(r, version, v));
            if SameVerification(r, version, v) then put == Ok(r') && Inv(w, r') else put.Err?
  {
    ProofIsFound(r.proofs, version);
    var put := PutVerified(r, version, v);
    if put.Ok? { PutVerifiedKeeps(w, r, version, v, put.value); }
  }

  // ---------------------------------------------------------------- upgrading

  /** The order, whose newest version is this, once that version is verified, observed and recorded. */
  function Verified(w: World, r: Rows, version: nat, v: Verification): Rows {
    r.(fulfillment := BitcoinVerified, verifications := WithVerification(r, version, v),
       observations := WithObservation(w, r, version, v),
       events := r.events[BitcoinVerifiedKey(version) := BitcoinVerified])
  }

  /**
   What the verifier's answer about the newest version leads to: not confirmed yet is polled again, an outage retried,
   bad evidence reviewed; a confirmation verifies the order unless it contradicts what is stored for the version.
   */
  ghost predicate VerifierOutcome(w: World, r: Rows, clock: Time, o: Outside, r': Rows, end: End) {
    var version := |r.proofs|;
    match o.bitcoin
    case BitcoinUnconfirmed => r' == r && end == NotYet("bitcoin_confirmation_pending")
    case BitcoinInvalid => r' == r && end == Review("bitcoin_evidence_invalid")
    case BitcoinConfirmed(_, _, n) =>
      var v := ResultNow(clock, o);
      if n < 1 || !SameVerification(r, version, v) then r' == r && end.Raised?
      else if !SameObservation(w, r, version, v) then
        r' == r.(verifications := WithVerification(r, version, v)) && end.Raised?
      else r' == Verified(w, r, version, v) && end == Done
    case _ => r' == r && end == RetryLater("bitcoin_verifier_unavailable")
  }

  /** The order with the calendars' bytes as its newest version, appended only when they are new. */
  function WithProofOf(w: World, r: Rows, data: bytes): Rows
    requires r.proofs != []
  {
    var last := r.proofs[|r.proofs| - 1];
    if data == last.data then r
    else r.(proofs := r.proofs + [ProofRow(|r.proofs| + 1, r.digest, data, w.sha(data), last.calendarAt)])
  }

  /** How an upgrade of a pending order ends: the calendars are asked, and about a usable answer the verifier. */
  ghost predicate PendingOutcome(w: World, r: Rows, clock: Time, o: Outside, r': Rows, end: End)
    requires r.proofs != []
  {
    if BadCalendar(w, r.digest, o) then r' == r && end == Review("upgraded_proof_invalid")
    else if !SomeCalendar(w, r.digest, o) then r' == r && end == RetryLater("calendar_upgrade_unavailable")
    else if o.calendar.data != r.proofs[|r.proofs| - 1].data && !FitsTable(o.calendar.data) then
      r' == r && end == Review("proof_append_conflict")
    else VerifierOutcome(w, WithProofOf(w, r, o.calendar.data), clock, o, r', end)
  }

  lemma UpgradeObserves(w: World, limits: Limits, r: Rows, clock: Time, version: nat, v: Verification, o: Outside,
                        n: nat)
    requires Inv(w, r) && r.fulfillment == CalendarPending && 0 < |r.proofs| == version && n >= 2
    requires v.confirmations >= 1 && version in r.verifications && SameVerification(r, version, v)
    requires SameObservation(w, r, version, v)
    ensures Ends(w, limits, r, clock, InUpgrade(UpgradeObserve(version, v)), o, n, Verified(w, r, version, v), Done)
  {
    Observes(w, r, version, v);
    var r1 := r.(observations := WithObservation(w, r, version, v));
    EntersNext(w, r1, BitcoinVerified, BitcoinVerifiedKey(version), None);
    var r2 := Verified(w, r, version, v);
    Last(w, limits, r1, clock, InUpgrade(UpgradeFinish(version)), o, n - 1, r2, Done);
    Before(w, limits, r, clock, InUpgrade(UpgradeObserve(version, v)), o, n, r1, InUpgrade(UpgradeFinish(version)), r2,
      Done);
  }

  /** An observation that contradicts the stored one is refused. */
  lemma UpgradeObservesNot(w: World, limits: Limits, r: Rows, clock: Time, version: nat, v: Verification, o: Outside,
                           n: nat) returns (end: End)
    requires Inv(w, r) && 0 < |r.proofs| == version && n >= 1
    requires v.confirmations >= 1 && version in r.verifications && SameVerification(r, version, v)
    requires !SameObservation(w, r, version, v)
    ensures Ends(w, limits, r, clock, InUpgrade(UpgradeObserve(version, v)), o, n, r, end) && end.Raised?
  {
    Observes(w, r, version, v);
    end := Raised(RecordOnce(r, version, ObservedKey(w, version, v), v).error);
    Last(w, limits, r, clock, InUpgrade(UpgradeObserve(version, v)), o, n, r, end);
  }

  lemma UpgradePuts(w: World, limits: Limits, r: Rows, clock: Time, version: nat, v: Verification, o: Outside, n: nat)
    returns (r': Rows, end: End)
    requires Inv(w, r) && r.fulfillment == CalendarPending && 0 < |r.proofs| == version && n >= 3
    requires AfterCalendar(r, v) && v.confirmations >= 1
    ensures Ends(w, limits, r, clock, InUpgrade(UpgradePut(version, v)), o, n, r', end)
    ensures if !SameVerification(r, version, v) then r' == r && end.Raised?
            else if !SameObservation(w, r, version, v) then
              r' == r.(verifications := WithVerification(r, version, v)) && end.Raised?
            else r' == Verified(w, r, version, v) && end == Done
  {
    Puts(w, r, version, v);
    var t := InUpgrade(UpgradePut(version, v));
    if SameVerification(r, version, v) {
      var r1 := r.(verifications := WithVerification(r, version, v));
      if SameObservation(w, r, version, v) {
        r', end := Verified(w, r, version, v), Done;
        UpgradeObserves(w, limits, r1, clock, version, v, o, n - 1);
      } else {
        r' := r1;
        end := UpgradeObservesNot(w, limits, r1, clock, version, v, o, n - 1);
      }
      Before(w, limits, r, clock, t, o, n, r1, InUpgrade(UpgradeObserve(version, v)), r', end);
    } else {
      r', end := r, Raised(PutVerified(r, version, v).error);
      Last(w, limits, r, clock, t, o, n, r, end);
    }
  }

  /** Every answer but a confirmation ends the run at once. */
  lemma VerifierFails(w: World, r: Rows, clock: Time, p: StoredProof, o: Outside) returns (end: End)
    requires !(o.bitcoin.BitcoinConfirmed? && o.bitcoin.confirmations >= 1)
    ensures UpgradeAct(w, r, clock, UpgradeVerify(p), o.bitcoin) == (r, Ended(end))
    ensures VerifierOutcome(w, r, clock, o, r, end)
  {
    end := UpgradeAct(w, r, clock, UpgradeVerify(p), o.bitcoin).1.end;
  }

  /** From the question to the verifier on. */
  lemma UpgradeVerifies(w: World, limits: Limits, r: Rows, clock: Time, p: StoredProof, o: Outside, n: nat)
    returns (r': Rows, end: End)
    requires Inv(w, r) && ClockInv(r, clock) && r.fulfillment == CalendarPending && 0 < |r.proofs| == p.version
             && n >= 4
    ensures Ends(w, limits, r, clock, InUpgrade(UpgradeVerify(p)), o, n, r', end)
    ensures VerifierOutcome(w, r, clock, o, r', end)
  {
    var t := InUpgrade(UpgradeVerify(p));
    if o.bitcoin.BitcoinConfirmed? && o.bitcoin.confirmations >= 1 {
      var v := ResultNow(clock, o);
      r', end := UpgradePuts(w, limits, r, clock, p.version, v, o, n - 1);
      Before(w, limits, r, clock, t, o, n, r, InUpgrade(UpgradePut(p.version, v)), r', end);
    } else {
      r' := r;
      end := VerifierFails(w, r, clock, p, o);
      Last(w, limits, r, clock, t, o, n, r, end);
    }
  }

  /** New bytes that fit are appended as the next version, which is then verified. */
  lemma UpgradeAppends(w: World, limits: Limits, r: Rows, clock: Time, p: StoredProof, data: bytes, o: Outside, n: nat)
    returns (r': Rows, end: End)
    requires Inv(w, r) && ClockInv(r, clock) && r.fulfillment == CalendarPending && 0 < |r.proofs| == p.version
             && n >= 5
    requires r.calendarAt == Some(p.calendarAt) && w.valid(r.digest, data) && FitsTable(data)
    requires data != r.proofs[|r.proofs| - 1].data
    ensures Ends(w, limits, r, clock, InUpgrade(UpgradeAppend(SealedProof(w, r, p.version + 1, data, p.calendarAt))), o,
                 n, r', end)
    ensures VerifierOutcome(w, WithProofOf(w, r, data), clock, o, r', end)
  {
    LatestIsLast(r.proofs);
    var q := SealedProof(w, r, p.version + 1, data, p.calendarAt);
    var r1 := WithProofOf(w, r, data);
    assert Append(w, r, q) == Ok(r1);
    AppendKeeps(w, r, q, r1);
    r', end := UpgradeVerifies(w, limits, r1, clock, q, o, n - 1);
    Before(w, limits, r, clock, InUpgrade(UpgradeAppend(q)), o, n, r1, InUpgrade(UpgradeVerify(q)), r', end);
  }

  /** New bytes that do not fit the table are refused. */
  lemma UpgradeMisfits(w: World, limits: Limits, r: Rows, clock: Time, p: StoredProof, data: bytes, o: Outside, n: nat)
    requires Inv(w, r) && 0 < |r.proofs| == p.version && !FitsTable(data) && n >= 2
    ensures Ends(w, limits, r, clock, InUpgrade(UpgradeAppend(SealedProof(w, r, p.version + 1, data, p.calendarAt))), o,
                 n, r, Review("proof_append_conflict"))
  {
    LatestFacts(w, r);
    var q := SealedProof(w, r, p.version + 1, data, p.calendarAt);
    var end := Review("proof_append_conflict");
    Last(w, limits, r, clock, InUpgrade(UpgradeConflict(q)), o, n - 1, r, end);
    Before(w, limits, r, clock, InUpgrade(UpgradeAppend(q)), o, n, r, InUpgrade(UpgradeConflict(q)), r, end);
  }

  lemma UpgradeNewBytes(w: World, limits: Limits, r: Rows, clock: Time, p: StoredProof, o: Outside, n: nat)
    returns (r': Rows, end: End)
    requires Inv(w, r) && ClockInv(r, clock) && r.fulfillment == CalendarPending && 0 < |r.proofs| == p.version
             && n >= 6
    requires r.calendarAt == Some(p.calendarAt) && p.data == r.proofs[|r.proofs| - 1].data
    requires SomeCalendar(w, r.digest, o) && o.calendar.data != p.data
    ensures Ends(w, limits, r, clock, InUpgrade(UpgradeSubmit(p)), o, n, r', end)
    ensures PendingOutcome(w, r, clock, o, r', end)
  {
    var data := o.calendar.data;
    var q := SealedProof(w, r, p.version + 1, data, p.calendarAt);
    if FitsTable(data) {
      r', end := UpgradeAppends(w, limits, r, clock, p, data, o, n - 1);
    } else {
      UpgradeMisfits(w, limits, r, clock, p, data, o, n - 1);
      r', end := r, Review("proof_append_conflict");
    }
    Before(w, limits, r, clock, InUpgrade(UpgradeSubmit(p)), o, n, r, InUpgrade(UpgradeAppend(q)), r', end);
  }

  lemma UpgradeSubmits(w: World, limits: Limits, r: Rows, clock: Time, p: StoredProof, o: Outside, n: nat)
    returns (r': Rows, end: End)
    requires Inv(w, r) && ClockInv(r, clock) && r.fulfillment == CalendarPending && 0 < |r.proofs| == p.version
             && n >= 6
    requires r.calendarAt == Some(p.calendarAt) && p.data == r.proofs[|r.proofs| - 1].data
    ensures Ends(w, limits, r, clock, InUpgrade(UpgradeSubmit(p)), o, n, r', end)
    ensures PendingOutcome(w, r, clock, o, r', end)
  {
    if !SomeCalendar(w, r.digest, o) {
      r' := r;
      end := if BadCalendar(w, r.digest, o) then Review("upgraded_proof_invalid")
             else RetryLater("calendar_upgrade_unavailable");
      Last(w, limits, r, clock, InUpgrade(UpgradeSubmit(p)), o, n, r, end);
    } else if o.calendar.data == p.data {
      r', end := UpgradeVerifies(w, limits, r, clock, p, o, n - 1);
      Before(w, limits, r, clock, InUpgrade(UpgradeSubmit(p)), o, n, r, InUpgrade(UpgradeVerify(p)), r', end);
    } else {
      r', end := UpgradeNewBytes(w, limits, r, clock, p, o, n);
    }
  }

  // ---------------------------------------------------------------- verifying again

  /** The stored evidence is of the same block and time, and not younger. */
  predicate SameEvidenceAs(r: Rows, v: Verification) {
    var version := |r.proofs|;
    && Observed(r, version) && SameVerification(r, version, v) && r.verifications[version].verifiedAt <= v.verifiedAt
  }

  /** The microsecond's reverification was recorded, if at all, in the state the order is in. */
  predicate SameReverification(r: Rows, key: EventKey) { key in r.events ==> r.events[key] == r.fulfillment }

  /**
   How an upgrade handler ends on a verified order: a lost confirmation or other evidence is reviewed,
     an outage retried,
   and the same evidence observed and recorded under its microsecond.
   */
  ghost predicate ReverifyOutcome(w: World, r: Rows, clock: Time, o: Outside, r': Rows, end: End) {
    var version := |r.proofs|;
    match o.bitcoin
    case BitcoinUnconfirmed => r' == r && end == Review("bitcoin_reverification_failed")
    case BitcoinInvalid => r' == r && end == Review("bitcoin_evidence_invalid")
    case BitcoinConfirmed(_, _, n) =>
      var v, key := ResultNow(clock, o), ReverifiedKey(version, w.micros(clock));
      if n < 1 then r' == r && end.Raised?
      else if !SameEvidenceAs(r, v) then r' == r && end == Review("bitcoin_reverification_metadata_conflict")
      else if !SameObservation(w, r, version, v) then r' == r && end.Raised?
      else if !SameReverification(r, key) then
        r' == r.(observations := WithObservation(w, r, version, v)) && end.Raised?
      else
        && r' == r.(observations := WithObservation(w, r, version, v), events := r.events[key := r.fulfillment])
        && end == Done
    case _ => r' == r && end == RetryLater("bitcoin_verifier_unavailable")
  }

  lemma ReverifyFinishes(w: World, limits: Limits, r: Rows, clock: Time, v: Verification, o: Outside, n: nat)
    returns (r': Rows, end: End)
    requires Inv(w, r) && VerifiedStage(r.fulfillment) && n >= 1
    ensures var key := ReverifiedKey(|r.proofs|, w.micros(v.verifiedAt));
            if SameReverification(r, key) then r' == r.(events := r.events[key := r.fulfillment]) && end == Done
            else r' == r && end.Raised?
    ensures Ends(w, limits, r, clock, InReverify(r.fulfillment, ReverifyFinish(|r.proofs|, v)), o, n, r', end)
  {
    var t := InReverify(r.fulfillment, ReverifyFinish(|r.proofs|, v));
    var key := ReverifiedKey(|r.proofs|, w.micros(v.verifiedAt));
    if SameReverification(r, key) {
      r', end := r.(events := r.events[key := r.fulfillment]), Done;
      assert key in r.events ==> r' == r;
    } else {
      r', end := r, Raised(TransitionOnce(r, r.fulfillment, key, None).error);
    }
    Last(w, limits, r, clock, t, o, n, r', end);
  }

  lemma ReverifyObserves(w: World, limits: Limits, r: Rows, clock: Time, v: Verification, o: Outside, n: nat)
    returns (r': Rows, end: End)
    requires Inv(w, r) && VerifiedStage(r.fulfillment) && r.proofs != [] && n >= 2
    requires v.confirmations >= 1 && SameEvidenceAs(r, v)
    ensures Ends(w, limits, r, clock, InReverify(r.fulfillment, ReverifyObserve(|r.proofs|, v)), o, n, r', end)
    ensures var key := ReverifiedKey(|r.proofs|, w.micros(v.verifiedAt));
            if !SameObservation(w, r, |r.proofs|, v) then r' == r && end.Raised?
            else if !SameReverification(r, key) then
              r' == r.(observations := WithObservation(w, r, |r.proofs|, v)) && end.Raised?
            else
              && r' == r.(observations := WithObservation(w, r, |r.proofs|, v),
                 events := r.events[key := r.fulfillment])
              && end == Done
  {
    var t := InReverify(r.fulfillment, ReverifyObserve(|r.proofs|, v));
    Observes(w, r, |r.proofs|, v);
    if SameObservation(w, r, |r.proofs|, v) {
      var r1 := r.(observations := WithObservation(w, r, |r.proofs|, v));
      r', end := ReverifyFinishes(w, limits, r1, clock, v, o, n - 1);
      Before(w, limits, r, clock, t, o, n, r1, InReverify(r.fulfillment, ReverifyFinish(|r.proofs|, v)), r', end);
    } else {
      r', end := r, Raised(RecordOnce(r, |r.proofs|, ObservedKey(w, |r.proofs|, v), v).error);
      Last(w, limits, r, clock, t, o, n, r, end);
    }
  }

  /** Every answer but the same evidence ends the run at once. */
  lemma ReverifyFails(w: World, r: Rows, clock: Time, p: StoredProof, o: Outside) returns (end: End)
    requires p.verification == Projected(r, |r.proofs|) && VerifiedStage(r.fulfillment)
    requires !(o.bitcoin.BitcoinConfirmed? && o.bitcoin.confirmations >= 1 && SameEvidenceAs(r, ResultNow(clock, o)))
    ensures ReverifyAct(w, r, clock, r.fulfillment, ReverifyAsk(p), o.bitcoin) == (r, Ended(end))
    ensures ReverifyOutcome(w, r, clock, o, r, end)
  {
    end := ReverifyAct(w, r, clock, r.fulfillment, ReverifyAsk(p), o.bitcoin).1.end;
  }

  lemma ReverifyAsks(w: World, limits: Limits, r: Rows, clock: Time, p: StoredProof, o: Outside, n: nat)
    returns (r': Rows, end: End)
    requires Inv(w, r) && VerifiedStage(r.fulfillment) && 0 < |r.proofs| == p.version && n >= 3
    requires p.verification == Projected(r, p.version)
    ensures Ends(w, limits, r, clock, InReverify(r.fulfillment, ReverifyAsk(p)), o, n, r', end)
    ensures ReverifyOutcome(w, r, clock, o, r', end)
  {
    var t := InReverify(r.fulfillment, ReverifyAsk(p));
    if o.bitcoin.BitcoinConfirmed? && o.bitcoin.confirmations >= 1 && SameEvidenceAs(r, ResultNow(clock, o)) {
      var v := ResultNow(clock, o);
      r', end := ReverifyObserves(w, limits, r, clock, v, o, n - 1);
      Before(w, limits, r, clock, t, o, n, r, InReverify(r.fulfillment, ReverifyObserve(p.version, v)), r', end);
    } else {
      r' := r;
      end := ReverifyFails(w, r, clock, p, o);
      Last(w, limits, r, clock, t, o, n, r, end);
    }
  }

  // ---------------------------------------------------------------- the upgrade handler as a whole

  /** How an upgrade that meets no other thread ends, for every state of the order and every outside answer. */
  ghost predicate UpgradeOutcome(w: World, r: Rows, clock: Time, o: Outside, r': Rows, end: End) {
    if r.proofs == [] then r' == r && end == Review("proof_missing")
    else if r.fulfillment in {BitcoinVerified, Delivered} then ReverifyOutcome(w, r, clock, o, r', end)
    else if r.fulfillment == CalendarPending then PendingOutcome(w, r, clock, o, r', end)
    else r' == r && end == Review("upgrade_state_invalid")
  }

  /** What the two reads lead to. */
  lemma UpgradeReadsTo(w: World, r: Rows)
    requires Inv(w, r)
    ensures Latest(w, r).Ok?
    ensures var t, latest := UpgradeAfterRead(w, r, Load(r), Latest(w, r).value), Latest(w, r).value;
            if r.proofs == [] then t == Ended(Review("proof_missing"))
            else
              && latest.Some? && latest.value.version == |r.proofs| && Some(latest.value.calendarAt) == r.calendarAt
              && latest.value.data == r.proofs[|r.proofs| - 1].data
              && latest.value.verification == Projected(r, |r.proofs|)
              && t == if VerifiedStage(r.fulfillment) then InReverify(r.fulfillment, ReverifyAsk(latest.value))
                      else if r.fulfillment == CalendarPending then InUpgrade(UpgradeSubmit(latest.value))
                      else Ended(Review("upgrade_state_invalid"))
  {
    LatestFacts(w, r);
    LatestIsLast(r.proofs);
  }

  lemma UpgradeFromReads(w: World, limits: Limits, r: Rows, clock: Time, o: Outside, n: nat)
    returns (r': Rows, end: End)
    requires Inv(w, r) && ClockInv(r, clock) && n >= 7
    ensures Ends(w, limits, r, clock, InUpgrade(UpgradeRead(Load(r))), o, n, r', end)
    ensures UpgradeOutcome(w, r, clock, o, r', end)
  {
    UpgradeReadsTo(w, r);
    var t := InUpgrade(UpgradeRead(Load(r)));
    var next := UpgradeAfterRead(w, r, Load(r), Latest(w, r).value);
    if next.Ended? {
      r', end := r, next.end;
      Last(w, limits, r, clock, t, o, n, r, end);
    } else {
      var p := Latest(w, r).value.value;
      if VerifiedStage(r.fulfillment) { r', end := ReverifyAsks(w, limits, r, clock, p, o, n - 1); }
      else { r', end := UpgradeSubmits(w, limits, r, clock, p, o, n - 1); }
      Before(w, limits, r, clock, t, o, n, r, next, r', end);
    }
  }

  /**
   From every reachable order, wherever earlier handlers were cut off: how one more upgrade ends, for every answer.
  */
  lemma UpgradeRecovers(w: World, limits: Limits, r: Rows, clock: Time, o: Outside, n: nat)
    requires Inv(w, r) && ClockInv(r, clock) && n >= 8
    ensures var (r', t') := Solo(w, limits, r, clock, InUpgrade(UpgradeLoad), o, n);
            t'.Ended? && UpgradeOutcome(w, r, clock, o, r', t'.end)
  {
    var r', end := UpgradeFromReads(w, limits, r, clock, o, n - 1);
    Before(w, limits, r, clock, InUpgrade(UpgradeLoad), o, n, r, InUpgrade(UpgradeRead(Load(r))), r', end);
  }
}
