/** When each evidence transaction commits on good rows, and what it then writes; every other call is refused. */
module EvidenceOutcomes {
  import opened Prelude
  import opened Orders
  import opened Evidence
  import opened EvidenceInvariant
  import opened FulfillmentHandlers
  import opened FulfillmentRecovery
  import opened HandoverRecovery
  import O = Outbox

  /** A calendar time that does not contradict the order's. */
  predicate TimeFits(r: Rows, at: Option<Time>) { at.Some? && r.calendarAt.Some? ==> at == r.calendarAt }

  /** The order's calendar time, set once. */
  function TimeWith(r: Rows, at: Option<Time>): Option<Time> { if r.calendarAt.Some? then r.calendarAt else at }

  // ---------------------------------------------------------------- proofs

  /** The proof is the newest row, said again. */
  predicate SameProof(r: Rows, p: StoredProof) {
    && p.version == |r.proofs| > 0 && p.verification.None?
    && r.proofs[p.version - 1] == ProofRow(p.version, p.digest, p.data, p.sha, p.calendarAt)
  }

  /** A proof of this order that fits the table is appended as the next version, or repeats the newest. */
  lemma AppendsExactly(w: World, r: Rows, p: StoredProof)
    requires Inv(w, r)
    ensures var result := Append(w, r, p);
            if !FitsTable(p.data) || p.digest != r.digest || !TimeFits(r, Some(p.calendarAt)) then result.Err?
            else if SameProof(r, p) then result == Ok(r)
            else if p.version == |r.proofs| + 1 then
              result == Ok(r.(calendarAt := Some(p.calendarAt),
                              proofs := r.proofs + [ProofRow(p.version, p.digest, p.data, p.sha, p.calendarAt)]))
            else result.Err?
  {
    LatestIsLast(r.proofs);
  }

  // ---------------------------------------------------------------- keyed transitions

  /** Staying, the next stage, or manual review; the first stage needs a payment. */
  predicate Legal(p: Payment, f: Fulfillment, target: Fulfillment) {
    || target == f
    || (f != InManualReview
        && (target == InManualReview || (Stage(target) == Stage(f) + 1 && (target == Queued ==> p == Paid))))
  }

  /**
   A keyed transition commits for a legal target, and again under the same key; a key that stands for another state is
   refused, as is a calendar time that contradicts the order's, or a pending order without one.
   */
  lemma TransitionsExactly(r: Rows, target: Fulfillment, key: EventKey, at: Option<Time>)
    ensures var result := TransitionOnce(r, target, key, at);
            if !TimeFits(r, at) then result.Err?
            else if key in r.events then
              if r.events[key] == target then result == Ok(r.(calendarAt := TimeWith(r, at))) else result.Err?
            else if !Legal(r.payment, r.fulfillment, target)
                    || (target == CalendarPending && TimeWith(r, at).None?) then result.Err?
            else
              result == Ok(r.(fulfillment := target, calendarAt := TimeWith(r, at), events := r.events[key := target]))
  {
    FulfillmentExactly(r.payment, r.fulfillment, target);
  }

  // ---------------------------------------------------------------- verifications, observations, bundles, notices

  /** A verification of a stored version is written once; the same block and time may be said again. */
  lemma VerifiesExactly(w: World, r: Rows, version: nat, v: Verification)
    requires Inv(w, r)
    ensures var result := PutVerified(r, version, v);
            if v.confirmations >= 1 && 1 <= version <= |r.proofs| && SameVerification(r, version, v)
            then result == Ok(r.(verifications := WithVerification(r, version, v)))
            else result.Err?
  {
    ProofIsFound(r.proofs, version);
  }

  /** An observation of the newest version that agrees with its verification is written once under its key. */
  lemma ObservesExactly(w: World, r: Rows, version: nat, key: ObservationKey, v: Verification)
    requires Inv(w, r)
    ensures var result, row, i := RecordOnce(r, version, key, v),
                                  Observation(key, version, v.block, v.confirmations, v.verifiedAt),
                                  FindObservation(r.observations, key);
            if !(1 <= version == |r.proofs|) || v.confirmations < 1 || version !in r.verifications
               || r.verifications[version].block != v.block || r.verifications[version].blockTime != v.blockTime
            then result.Err?
            else if i.None? then result == Ok(Recorded(r.(observations := r.observations + [row]), |r.observations|))
            else if r.observations[i.value] == row then result == Ok(Recorded(r, i.value))
            else result.Err?
  {
    LatestIsLast(r.proofs);
  }

  /** A bundle of a stored version that fits, and is clean, is written once; the same bytes may be said again. */
  lemma BundlesExactly(w: World, r: Rows, version: nat, data: bytes)
    requires Inv(w, r)
    ensures var result := PutBundle(w, r, version, data);
            if 1 <= version <= |r.proofs| && GoodBundle(w, r, version, data)
            then result == Ok(WithBundle(w, r, version, data)) else result.Err?
  {
    ProofIsFound(r.proofs, version);
    if version in r.bundles && r.bundles[version].data == data {
      assert r.bundles[version := Bundle(data, w.sha(data))] == r.bundles;
    }
  }

  /** Only the newest count of the newest version is announced, from its threshold on; a notice is written once. */
  lemma EnqueuesExactly(w: World, limits: Limits, r: Rows, clock: Time, kind: O.Kind, version: nat, n: int)
    requires Inv(w, r)
    ensures var result := EnqueueNotice(r, kind, version, n, clock, limits.horizon, limits.maxAttempts);
            if && FitsColumn(version) && FitsColumn(n) && version == |r.proofs| && Observed(r, version)
               && (if kind == O.Initial then 1 else 6) <= n == Count(r, version)
            then result == Ok(r.(box := WithNotice(r, kind, version, limits, clock)))
            else result.Err?
  {
    LatestIsLast(r.proofs);
    if 0 < |r.proofs| == version && Observed(r, version) { Announces(w, limits, r, clock, kind, version, n); }
  }
}
