/**
 One order's evidence: its proof versions, verifications, observations, bundles, notices and state events.

 Every function is one committed transaction of a fulfillment repository, the outbox or the Resend webhook.
 An `Err` is the ValueError the repository raises: the transaction rolls back.  Tables are kept in insertion
 order where the repository's query sorts them.
 */
module Evidence {
  import opened Prelude
  import opened Orders
  import O = Outbox

  /** The opaque functions: SHA-256, exact-proof validation, the microsecond text of a time, the bundle scan. */
  datatype World = World(
    sha: bytes -> bytes, valid: (bytes, bytes) -> bool, micros: Time -> int, bundleSafe: bytes -> bool)

  /** The part of a verification that must never change. */
  datatype Block = Block(verifier: string, height: nat, hash: string, policy: string)

  /** A verified result; an unverified one carries nothing and is never stored. */
  datatype Verification = Verification(block: Block, blockTime: Time, verifiedAt: Time, confirmations: int)

  datatype VerificationRow = VerificationRow(block: Block, blockTime: Time, verifiedAt: Time)

  datatype ObservationKey = ObservationKey(version: nat, confirmations: int, micros: int)

  datatype Observation = Observation(
    key: ObservationKey, version: nat, block: Block, confirmations: int, observedAt: Time)

  datatype ProofRow = ProofRow(version: nat, digest: bytes, data: bytes, sha: bytes, calendarAt: Time)

  /** A proof as the port hands it out; it is in state `bitcoin_verified` exactly when it carries a verification. */
  datatype StoredProof = StoredProof(
    version: nat, digest: bytes, data: bytes, sha: bytes, calendarAt: Time, verification: Option<Verification>)

  datatype Bundle = Bundle(data: bytes, sha: bytes)

  datatype EventKey =
    | StampStart | StampResponse | StampPersisted
    | ReplayStart(version: nat) | StampReplay(version: nat)
    | BitcoinVerifiedKey(version: nat) | ReverifiedKey(version: nat, micros: int)
    | WorkerTerminal(code: string) | ResendDelivered(svix: string)

  datatype EmailKind = EmailDelivered | EmailBad | EmailOther

  datatype Email = Email(svix: string, kind: EmailKind, providerId: string, createdAt: Time, payload: bytes)

  datatype Rows = Rows(
    ref: string, digest: bytes, payment: Payment, fulfillment: Fulfillment, calendarAt: Option<Time>,
    proofs: seq<ProofRow>, verifications: map<nat, VerificationRow>, observations: seq<Observation>,
    bundles: map<nat, Bundle>, events: map<EventKey, Fulfillment>, box: O.Box, emails: seq<Email>)

  const MAX_PROOF_BYTES: nat := 262_144
  const MAX_BUNDLE_BYTES: nat := 12 * 1024 * 1024
  const MAX_COUNT: nat := 2_147_483_647

  // ---------------------------------------------------------------- reading

  /** `order by version desc limit 1`. */
  function LatestProof(proofs: seq<ProofRow>): Option<ProofRow> {
    if proofs == [] then None
    else
      var last := proofs[|proofs| - 1];
      match LatestProof(proofs[..|proofs| - 1])
      case Some(p) => if p.version > last.version then Some(p) else Some(last)
      case None => Some(last)
  }

  /** `order by observed_at desc, created_at desc limit 1` among one version's observations, as a row number. */
  function LatestObservation(observations: seq<Observation>, version: nat): (r: Option<nat>)
    ensures r.Some? ==> r.value < |observations| && observations[r.value].version == version
    ensures r.None? ==> forall i :: 0 <= i < |observations| ==> observations[i].version != version
  {
    if observations == [] then None
    else
      var n := |observations| - 1;
      var earlier := LatestObservation(observations[..n], version);
      if observations[n].version != version then
        assert earlier.None? ==> forall i :: 0 <= i < n ==> observations[i] == observations[..n][i];
        earlier
      else if earlier.Some? && observations[earlier.value].observedAt > observations[n].observedAt then earlier
      else Some(n)
  }

  function FindObservation(observations: seq<Observation>, key: ObservationKey): (r: Option<nat>)
    ensures r.Some? ==> r.value < |observations| && observations[r.value].key == key
    ensures r.None? ==> forall i :: 0 <= i < |observations| ==> observations[i].key != key
  {
    if observations == [] then None
    else if observations[|observations| - 1].key == key then Some(|observations| - 1)
    else
      var r := FindObservation(observations[..|observations| - 1], key);
      assert r.None? ==> forall i :: 0 <= i < |observations| - 1 ==>
               observations[i] == observations[..|observations| - 1][i];
      r
  }

  function FindProof(proofs: seq<ProofRow>, version: nat): (r: Option<ProofRow>)
    ensures r.Some? ==> r.value in proofs && r.value.version == version
    ensures r.None? ==> forall p :: p in proofs ==> p.version != version
  {
    if proofs == [] then None
    else if proofs[|proofs| - 1].version == version then Some(proofs[|proofs| - 1])
    else FindProof(proofs[..|proofs| - 1], version)
  }

  /** `_stored_proof`; the StoredProof constructor checks the checksum. */
  function Stored(w: World, p: ProofRow, v: Option<Verification>): Result<StoredProof, string> {
    if w.sha(p.data) != p.sha then Err("proof_checksum_mismatch")
    else Ok(StoredProof(p.version, p.digest, p.data, p.sha, p.calendarAt, v))
  }

  predicate VerifiedStage(f: Fulfillment) { f in {BitcoinVerified, Delivered} }

  /** `latest_for_order`: the verification shows only on a verified order that also has an observation. */
  function Projected(r: Rows, version: nat): Option<Verification> {
    if version !in r.verifications || !VerifiedStage(r.fulfillment) then None
    else
      match LatestObservation(r.observations, version)
      case None => None
      case Some(i) =>
        var v := r.verifications[version];
        Some(Verification(v.block, v.blockTime, v.verifiedAt, r.observations[i].confirmations))
  }

  function Latest(w: World, r: Rows): Result<Option<StoredProof>, string> {
    match LatestProof(r.proofs)
    case None => Ok(None)
    case Some(p) =>
      match Stored(w, p, Projected(r, p.version))
      case Ok(s) => Ok(Some(s))
      case Err(e) => Err(e)
  }

  function GetVerified(r: Rows, version: nat): Result<Option<Verification>, string> {
    if version !in r.verifications then Ok(None)
    else
      match LatestObservation(r.observations, version)
      case None => Err("verification_confirmation_observation_missing")
      case Some(i) =>
        var v, o := r.verifications[version], r.observations[i];
        if o.block != v.block then Err("verification_confirmation_observation_mismatch")
        else Ok(Some(Verification(v.block, v.blockTime, v.verifiedAt, o.confirmations)))
  }

  // ---------------------------------------------------------------- writing

  function MergeCalendar(at: Option<Time>, supplied: Option<Time>): Result<Option<Time>, string> {
    if supplied.None? then Ok(at)
    else if at.None? then Ok(supplied)
    else if at != supplied then Err("calendar_submission_time_conflict")
    else Ok(at)
  }

  /** `append`, for the pending proofs the handlers build. */
  function Append(w: World, r: Rows, p: StoredProof): Result<Rows, string> {
    if !(1 <= |p.data| <= MAX_PROOF_BYTES) then Err("proof_size_invalid")
    else if r.digest != p.digest then Err("proof_target_does_not_match_order")
    else
      match MergeCalendar(r.calendarAt, Some(p.calendarAt))
      case Err(e) => Err(e)
      case Ok(at) =>
        var latest := LatestProof(r.proofs);
        if latest.Some? && p.version == latest.value.version then
          if Stored(w, latest.value, None) == Ok(p) then Ok(r.(calendarAt := at)) else Err("proof_version_conflict")
        else if latest.None? && p.version != 1 then Err("first_proof_version_must_be_one")
        else if latest.Some? && p.version != latest.value.version + 1 then Err("proof_version_must_append")
        else if latest.Some? && latest.value.digest != p.digest then Err("proof_target_is_immutable")
        else Ok(WithProof(r, p, at))
  }

  function WithProof(r: Rows, p: StoredProof, at: Option<Time>): Rows {
    r.(calendarAt := at, proofs := r.proofs + [ProofRow(p.version, p.digest, p.data, p.sha, p.calendarAt)])
  }

  function TransitionOnce(r: Rows, target: Fulfillment, key: EventKey, supplied: Option<Time>): Result<Rows, string> {
    if key in r.events && r.events[key] != target then Err("fulfillment_event_key_conflict")
    else if key !in r.events && TransitionFulfillment(r.payment, r.fulfillment, target).None? then
      Err("fulfillment_transition_illegal")
    else
      match MergeCalendar(r.calendarAt, supplied)
      case Err(e) => Err(e)
      case Ok(at) =>
        if key in r.events then Ok(r.(calendarAt := at))
        else if target == CalendarPending && at.None? then Err("calendar_submission_time_required")
        else Ok(r.(fulfillment := target, calendarAt := at, events := r.events[key := target]))
  }

  predicate Matches(row: VerificationRow, v: Verification) { row.block == v.block && row.blockTime == v.blockTime }

  function PutVerified(r: Rows, version: nat, v: Verification): Result<Rows, string> {
    if v.confirmations < 1 then Err("verification_confirmation_count_invalid")
    else
      match FindProof(r.proofs, version)
      case None => Err("verification_proof_not_found")
      case Some(p) =>
        if p.digest != r.digest then Err("verification_proof_target_conflict")
        else if version in r.verifications then
          if Matches(r.verifications[version], v) then Ok(r) else Err("verification_conflict")
        else Ok(r.(verifications := r.verifications[version := VerificationRow(v.block, v.blockTime, v.verifiedAt)]))
  }

  /** The tables after `record_once`, and the number of the observation row it answers with. */
  datatype Recorded = Recorded(rows: Rows, row: nat)

  function RecordOnce(r: Rows, version: nat, key: ObservationKey, v: Verification): Result<Recorded, string> {
    if version < 1 || v.confirmations < 1 then Err("confirmation_observation_verification_invalid")
    else
      var latest := LatestProof(r.proofs);
      if latest.None? || latest.value.version != version || latest.value.digest != r.digest then
        Err("confirmation_observation_proof_not_current")
      else if version !in r.verifications || !Matches(r.verifications[version], v) then
        Err("confirmation_observation_verification_mismatch")
      else
        match FindObservation(r.observations, key)
        case Some(i) =>
          if r.observations[i] == Observation(key, version, v.block, v.confirmations, v.verifiedAt)
          then Ok(Recorded(r, i)) else Err("confirmation_observation_event_conflict")
        case None =>
          var row := Observation(key, version, v.block, v.confirmations, v.verifiedAt);
          Ok(Recorded(r.(observations := r.observations + [row]), |r.observations|))
  }

  function PutBundle(w: World, r: Rows, version: nat, data: bytes): Result<Rows, string> {
    if !(1 <= |data| <= MAX_BUNDLE_BYTES) then Err("bundle_size_invalid")
    else if !w.bundleSafe(data) then Err("bundle_contains_sensitive_data")
    else
      match FindProof(r.proofs, version)
      case None => Err("bundle_proof_not_found")
      case Some(p) =>
        if p.digest != r.digest then Err("bundle_proof_target_conflict")
        else if version in r.bundles then
          if r.bundles[version] == Bundle(data, w.sha(data)) then Ok(r) else Err("bundle_conflict")
        else Ok(r.(bundles := r.bundles[version := Bundle(data, w.sha(data))]))
  }

  function KeyOf(r: Rows, kind: O.Kind, version: nat): O.NoticeKey { O.NoticeKey(kind, version, r.ref) }

  /** `enqueue`: only the current proof's newest observation, agreeing with its verification, can be announced. */
  function EnqueueNotice(r: Rows, kind: O.Kind, version: nat, confirmations: int, now: Time, horizon: Time, max: nat)
    : Result<Rows, string>
  {
    if !(1 <= version <= MAX_COUNT) || !(O.Threshold(kind) <= confirmations <= MAX_COUNT) then
      Err("notification_milestone_invalid")
    else
      var latest, current := LatestProof(r.proofs), LatestObservation(r.observations, version);
      if latest.None? || latest.value.version != version || latest.value.digest != r.digest
         || version !in r.verifications || current.None?
         || r.observations[current.value].confirmations != confirmations
         || r.observations[current.value].block != r.verifications[version].block
      then Err("notification_confirmation_observation_missing")
      else
        var key := KeyOf(r, kind, version);
        if key in r.box.notices then
          if SameMessage(r, key, r.observations[current.value]) then Ok(r) else Err("outbox_message_key_conflict")
        else Ok(r.(box := O.Insert(r.box, key, confirmations, current.value, now, horizon, max)))
  }

  /** `_same_message`, beyond the fields the key fixes. */
  predicate SameMessage(r: Rows, key: O.NoticeKey, current: Observation)
    requires key in r.box.notices
  {
    var row := r.box.notices[key].row;
    && row.confirmations >= O.Threshold(key.kind)
    && row.observation < |r.observations|
    && r.observations[row.observation].version == key.version
    && r.observations[row.observation].confirmations == row.confirmations
    && r.observations[row.observation].block == current.block
  }

  // ---------------------------------------------------------------- delivery

  /** `_notification_observation_matches`. */
  predicate ObservationMatches(r: Rows, key: O.NoticeKey)
    requires key in r.box.notices && key.version in r.verifications
  {
    var row, current := r.box.notices[key].row, LatestObservation(r.observations, key.version);
    && row.observation < |r.observations| && current.Some?
    && (var bound, newest, v := r.observations[row.observation], r.observations[current.value],
        r.verifications[key.version];
        && bound.version == key.version && bound.confirmations == row.confirmations
        && bound.confirmations >= O.Threshold(key.kind) && newest.confirmations >= O.Threshold(key.kind)
        && bound.block == v.block && newest.block == v.block)
  }

  /** `_delivery_evidence_matches`. */
  predicate DeliveryEvidence(w: World, r: Rows, key: O.NoticeKey)
    requires key in r.box.notices
  {
    var row, latest := r.box.notices[key].row, LatestProof(r.proofs);
    && row.state in {O.Accepted, O.Failed}
    && row.providerId.Some?
    && row.confirmations >= O.Threshold(key.kind)
    && key.order == r.ref
    && latest.Some? && latest.value.version == key.version && latest.value.digest == r.digest
    && w.sha(latest.value.data) == latest.value.sha
    && key.version in r.verifications && key.version in r.bundles
    && ObservationMatches(r, key)
    && w.sha(r.bundles[key.version].data) == r.bundles[key.version].sha
  }

  /** Whether `_apply_delivered_event` writes anything. */
  predicate Applies(w: World, r: Rows, key: O.NoticeKey, e: Email) {
    && key in r.box.notices
    && r.box.notices[key].row.state != O.Delivered
    && r.box.notices[key].row.acceptedAt.Some?
    && r.box.notices[key].row.providerId == Some(e.providerId)
    && e.kind == EmailDelivered
    && DeliveryEvidence(w, r, key)
    && VerifiedStage(r.fulfillment)
  }

  /** The flags are `notification_delivered` and `order_transitioned`. */
  datatype WebhookResult = WebhookResult(duplicate: bool, delivered: bool, transitioned: bool)

  function ApplyDelivered(w: World, r: Rows, key: O.NoticeKey, e: Email): (Rows, bool, bool) {
    if !Applies(w, r, key, e) then (r, false, false)
    else
      var marked := r.(box := O.Deliver(r.box, key, e.createdAt));
      if key.kind == O.Final || r.fulfillment == Delivered then (marked, true, false)
      else (marked.(fulfillment := Delivered, events := r.events[ResendDelivered(e.svix) := Delivered]), true, true)
  }

  function FindEmail(emails: seq<Email>, svix: string): (r: Option<Email>)
    ensures r.Some? ==> r.value in emails && r.value.svix == svix
    ensures r.None? ==> forall e :: e in emails ==> e.svix != svix
  {
    if emails == [] then None
    else if emails[|emails| - 1].svix == svix then Some(emails[|emails| - 1])
    else FindEmail(emails[..|emails| - 1], svix)
  }

  /** The earliest stored `email.delivered` for a provider id. */
  function EarliestDelivered(emails: seq<Email>, id: string): (r: Option<Email>)
    ensures r.Some? ==> r.value in emails && r.value.kind == EmailDelivered && r.value.providerId == id
    ensures r.None? ==> forall e :: e in emails ==> !(e.kind == EmailDelivered && e.providerId == id)
  {
    if emails == [] then None
    else
      var last := emails[|emails| - 1];
      var earlier := EarliestDelivered(emails[..|emails| - 1], id);
      if last.kind != EmailDelivered || last.providerId != id then earlier
      else if earlier.Some? && earlier.value.createdAt <= last.createdAt then earlier
      else Some(last)
  }

  ghost predicate HasProviderId(r: Rows, key: O.NoticeKey, id: string) {
    key in r.box.notices && r.box.notices[key].row.providerId == Some(id)
  }

  /** The row a webhook finds by its unique provider id. */
  ghost function ByProviderId(r: Rows, id: string): (k: Option<O.NoticeKey>)
    ensures k.Some? ==> HasProviderId(r, k.value, id)
    ensures k.None? ==> forall key :: !HasProviderId(r, key, id)
  {
    if exists key :: HasProviderId(r, key, id) then
      var key :| HasProviderId(r, key, id);
      Some(key)
    else None
  }

  /** `record_accepted`: the acceptance, then the delivery that arrived before it. */
  function AcceptNotice(w: World, r: Rows, c: O.Claim, id: string, status: int, now: Time)
    : Result<Rows, O.RecordError>
  {
    match O.RecordAccepted(r.box, c, id, status, now)
    case Err(e) => Err(e)
    case Ok(box) =>
      match EarliestDelivered(r.emails, id)
      case None => Ok(r.(box := box))
      case Some(e) => Ok(ApplyDelivered(w, r.(box := box), c.key, e).0)
  }

  /** `process`: a replay is reconciled, a new event is stored and acts on an accepted notice. */
  ghost function Webhook(w: World, r: Rows, e: Email): Result<(Rows, WebhookResult), string> {
    var existing, key := FindEmail(r.emails, e.svix), ByProviderId(r, e.providerId);
    if existing.Some? then
      if existing.value != e then Err("resend_webhook_replay_conflict")
      else if e.kind != EmailDelivered || key.None? then Ok((r, WebhookResult(true, false, false)))
      else
        var (r', delivered, transitioned) := ApplyDelivered(w, r, key.value, e);
        Ok((r', WebhookResult(true, delivered, transitioned)))
    else
      var stored := r.(emails := r.emails + [e]);
      if key.None? || r.box.notices[key.value].row.acceptedAt.None? || e.kind == EmailOther then
        Ok((stored, WebhookResult(false, false, false)))
      else if e.kind == EmailBad then
        Ok((stored.(box := O.Bounce(r.box, key.value)), WebhookResult(false, false, false)))
      else
        var (r', delivered, transitioned) := ApplyDelivered(w, stored, key.value, e);
        Ok((r', WebhookResult(false, delivered, transitioned)))
  }

  /** The Stripe webhook's writes to one order: a change to `paid` sets `queued` whatever stood there. */
  function PaymentChanges(r: Rows, target: Payment): Rows {
    match TransitionPayment(r.payment, target)
    case None => r
    case Some(p) =>
      r.(payment := p, fulfillment := if p == Paid && p != r.payment then Queued else r.fulfillment)
  }
}
