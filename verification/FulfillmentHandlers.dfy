/**
 The four fulfillment handlers, cut between their repository calls.

 A handler is a thread whose value says which call comes next and what it remembers.  One step makes one
 repository call, or takes one answer from the calendars, the Bitcoin verifier or the bundler.  Any number
 of threads run on the same order, overlap, stop for ever or are started again.
 */
module FulfillmentHandlers {
  import opened Prelude
  import opened Orders
  import opened Evidence
  import opened EvidenceInvariant
  import O = Outbox

  /** What `get_for_fulfillment` handed out. */
  datatype View = View(payment: Payment, fulfillment: Fulfillment, calendarAt: Option<Time>)

  datatype StampPoint =
    | StampLoad
    | StampRead(view: View)
    | StampReplayStart(version: nat, at: Time)
    | StampReplayEnd(version: nat, at: Time)
    | StampStarting
    | StampSubmit
    | StampAppend(proof: StoredProof)
    | StampConflict(proof: StoredProof)
    | StampRespond(at: Time)
    | StampPersist(at: Time)

  datatype UpgradePoint =
    | UpgradeLoad
    | UpgradeRead(view: View)
    | UpgradeSubmit(proof: StoredProof)
    | UpgradeAppend(proof: StoredProof)
    | UpgradeConflict(proof: StoredProof)
    | UpgradeVerify(proof: StoredProof)
    | UpgradePut(version: nat, result: Verification)
    | UpgradeObserve(version: nat, result: Verification)
    | UpgradeFinish(version: nat)

  /** The upgrade handler on an order that is already verified. */
  datatype ReverifyPoint =
    | ReverifyAsk(proof: StoredProof)
    | ReverifyObserve(version: nat, result: Verification)
    | ReverifyFinish(version: nat, result: Verification)

  datatype DeliverPoint =
    | DeliverLoad
    | DeliverRead(view: View)
    | DeliverCheck(proof: StoredProof)
    | DeliverObservation(proof: StoredProof)
    | DeliverBuild(proof: StoredProof, confirmations: int)
    | DeliverPut(version: nat, confirmations: int, bundle: bytes)
    | DeliverEnqueue(version: nat, confirmations: int)

  datatype ConfirmPoint =
    | ConfirmLoad
    | ConfirmRead
    | ConfirmStored(proof: StoredProof)
    | ConfirmPrevious(proof: StoredProof, stored: Verification)
    | ConfirmAsk(proof: StoredProof, stored: Verification, previous: int)
    | ConfirmObserve(version: nat, result: Verification)
    | ConfirmEnqueue(version: nat, confirmations: int)

  /** Normal return, ManualReviewError, RetryableFulfillmentError, ConfirmationPending, any other error. */
  datatype End = Done | Review(code: string) | RetryLater(code: string) | NotYet(code: string) | Raised(error: string)

  datatype Thread =
    | InStamp(stamp: StampPoint)
    | InUpgrade(upgrade: UpgradePoint)
    | InReverify(state: Fulfillment, reverify: ReverifyPoint)
    | InDelivery(delivery: DeliverPoint)
    | InConfirmation(confirmation: ConfirmPoint)
    | Ended(end: End)

  /** What the outside world answers, when the next call is an outside one. */
  datatype Reply =
    | NoReply
    | CalendarProof(data: bytes)
    | CalendarProofInvalid
    | Unavailable
    | BitcoinConfirmed(block: Block, blockTime: Time, confirmations: int)
    | BitcoinUnconfirmed
    | BitcoinInvalid
    | Zip(data: bytes)
    | ZipRefused(error: string)

  /** The outbox settings of `SqlNotificationOutbox`. */
  datatype Limits = Limits(horizon: Time, maxAttempts: nat)

  function Load(r: Rows): View { View(r.payment, r.fulfillment, r.calendarAt) }

  function ObservedKey(w: World, version: nat, v: Verification): ObservationKey {
    ObservationKey(version, v.confirmations, w.micros(v.verifiedAt))
  }

  function SealedProof(w: World, r: Rows, version: nat, data: bytes, at: Time): StoredProof {
    StoredProof(version, r.digest, data, w.sha(data), at, None)
  }

  /** `_same_reverification_evidence`. */
  predicate SameEvidence(existing: Option<Verification>, current: Verification) {
    && existing.Some?
    && current.block == existing.value.block && current.blockTime == existing.value.blockTime
    && current.verifiedAt >= existing.value.verifiedAt
  }

  /** A keyed transition as the last or an inner call of a handler. */
  function Transition(r: Rows, target: Fulfillment, key: EventKey, at: Option<Time>, next: Thread): (Rows, Thread) {
    match TransitionOnce(r, target, key, at)
    case Ok(r') => (r', next)
    case Err(e) => (r, Ended(Raised(e)))
  }

  // ---------------------------------------------------------------- the stamp handler

  function StampAfterRead(w: World, r: Rows, view: View, latest: Option<StoredProof>): Thread {
    match latest
    case Some(p) =>
      if !w.valid(r.digest, p.data) then Ended(Review("stored_proof_invalid"))
      else if p.digest != r.digest then Ended(Review("stored_proof_target_mismatch"))
      else if view.calendarAt.Some? && view.calendarAt.value != p.calendarAt then
        Ended(Review("proof_submission_time_conflict"))
      else if view.fulfillment == Queued then InStamp(StampReplayStart(p.version, p.calendarAt))
      else if view.fulfillment == Stamping then InStamp(StampReplayEnd(p.version, p.calendarAt))
      else Ended(Done)
    case None =>
      if view.payment != Paid then Ended(Review("initial_stamp_not_paid"))
      else if view.fulfillment == Queued then InStamp(StampStarting)
      else if view.fulfillment != Stamping then Ended(Review("stamp_state_invalid"))
      else InStamp(StampSubmit)
  }

  function StampAct(w: World, r: Rows, clock: Time, t: StampPoint, reply: Reply): (Rows, Thread) {
    match t
    case StampLoad => (r, InStamp(StampRead(Load(r))))
    case StampRead(view) =>
      (match Latest(w, r)
       case Err(e) => (r, Ended(Raised(e)))
       case Ok(latest) => (r, StampAfterRead(w, r, view, latest)))
    case StampReplayStart(v, at) => Transition(r, Stamping, ReplayStart(v), Some(at), InStamp(StampReplayEnd(v, at)))
    case StampReplayEnd(v, at) => Transition(r, CalendarPending, StampReplay(v), Some(at), Ended(Done))
    case StampStarting =>
      (match TransitionOnce(r, Stamping, StampStart, None)
       case Err(e) => (r, Ended(Raised(e)))
       case Ok(r') => (r', if r'.fulfillment != Stamping then Ended(Review("stamp_state_invalid"))
         else InStamp(StampSubmit)))
    case StampSubmit =>
      (match reply
       case CalendarProof(data) =>
         if !w.valid(r.digest, data) then (r, Ended(Review("calendar_proof_invalid")))
         else (r, InStamp(StampAppend(SealedProof(w, r, 1, data, clock))))
       case CalendarProofInvalid => (r, Ended(Review("calendar_proof_invalid")))
       case _ => (r, Ended(RetryLater("calendar_submit_unavailable"))))
    case StampAppend(p) =>
      (match Append(w, r, p)
       case Ok(r') => (r', InStamp(StampRespond(p.calendarAt)))
       case Err(_) => (r, InStamp(StampConflict(p))))
    case StampConflict(p) =>
      (match Latest(w, r)
       case Err(e) => (r, Ended(Raised(e)))
       case Ok(latest) => (r, if latest == Some(p) then InStamp(StampRespond(p.calendarAt))
         else Ended(Review("proof_append_conflict"))))
    case StampRespond(at) => Transition(r, Stamping, StampResponse, Some(at), InStamp(StampPersist(at)))
    case StampPersist(at) => Transition(r, CalendarPending, StampPersisted, Some(at), Ended(Done))
  }

  // ---------------------------------------------------------------- the upgrade handler

  function UpgradeAfterRead(w: World, r: Rows, view: View, latest: Option<StoredProof>): Thread {
    match latest
    case None => Ended(Review("proof_missing"))
    case Some(p) =>
      if !w.valid(r.digest, p.data) then Ended(Review("stored_proof_invalid"))
      else if view.calendarAt != Some(p.calendarAt) then Ended(Review("proof_submission_time_conflict"))
      else if VerifiedStage(view.fulfillment) then InReverify(view.fulfillment, ReverifyAsk(p))
      else if view.fulfillment != CalendarPending then Ended(Review("upgrade_state_invalid"))
      else InUpgrade(UpgradeSubmit(p))
  }

  /** The answer to `_verify_bitcoin`, as a result made now. */
  datatype Verdict = Verified(v: Verification) | NotVerified | Failing(t: Thread)

  function Ask(clock: Time, reply: Reply): Verdict {
    match reply
    case BitcoinConfirmed(block, blockTime, confirmations) =>
      if confirmations < 1 then Failing(Ended(Raised("verified Bitcoin result requires at least one confirmation")))
      else Verified(Verification(block, blockTime, clock, confirmations))
    case BitcoinUnconfirmed => NotVerified
    case BitcoinInvalid => Failing(Ended(Review("bitcoin_evidence_invalid")))
    case _ => Failing(Ended(RetryLater("bitcoin_verifier_unavailable")))
  }

  function UpgradeAct(w: World, r: Rows, clock: Time, t: UpgradePoint, reply: Reply): (Rows, Thread) {
    match t
    case UpgradeLoad => (r, InUpgrade(UpgradeRead(Load(r))))
    case UpgradeRead(view) =>
      (match Latest(w, r)
       case Err(e) => (r, Ended(Raised(e)))
       case Ok(latest) => (r, UpgradeAfterRead(w, r, view, latest)))
    case UpgradeSubmit(p) =>
      (match reply
       case CalendarProof(data) =>
         if !w.valid(r.digest, data) then (r, Ended(Review("upgraded_proof_invalid")))
         else if data != p.data then (r, InUpgrade(UpgradeAppend(SealedProof(w, r, p.version + 1, data, p.calendarAt))))
         else (r, InUpgrade(UpgradeVerify(p)))
       case CalendarProofInvalid => (r, Ended(Review("upgraded_proof_invalid")))
       case _ => (r, Ended(RetryLater("calendar_upgrade_unavailable"))))
    case UpgradeAppend(p) =>
      (match Append(w, r, p)
       case Ok(r') => (r', InUpgrade(UpgradeVerify(p)))
       case Err(_) => (r, InUpgrade(UpgradeConflict(p))))
    case UpgradeConflict(p) =>
      (match Latest(w, r)
       case Err(e) => (r, Ended(Raised(e)))
       case Ok(latest) => (r, if latest == Some(p) then InUpgrade(UpgradeVerify(p))
         else Ended(Review("proof_append_conflict"))))
    case UpgradeVerify(p) =>
      (match Ask(clock, reply)
       case Verified(v) => (r, InUpgrade(UpgradePut(p.version, v)))
       case NotVerified => (r, Ended(NotYet("bitcoin_confirmation_pending")))
       case Failing(t') => (r, t'))
    case UpgradePut(version, v) =>
      (match PutVerified(r, version, v)
       case Ok(r') => (r', InUpgrade(UpgradeObserve(version, v)))
       case Err(e) => (r, Ended(Raised(e))))
    case UpgradeObserve(version, v) =>
      (match RecordOnce(r, version, ObservedKey(w, version, v), v)
       case Ok(recorded) => (recorded.rows, InUpgrade(UpgradeFinish(version)))
       case Err(e) => (r, Ended(Raised(e))))
    case UpgradeFinish(version) => Transition(r, BitcoinVerified, BitcoinVerifiedKey(version), None, Ended(Done))
  }

  /** The upgrade handler on an order that is already verified. */
  function ReverifyAct(w: World, r: Rows, clock: Time, f: Fulfillment, t: ReverifyPoint, reply: Reply): (Rows, Thread) {
    match t
    case ReverifyAsk(p) =>
      (match Ask(clock, reply)
       case Verified(v) =>
         if !SameEvidence(p.verification, v) then (r, Ended(Review("bitcoin_reverification_metadata_conflict")))
         else (r, InReverify(f, ReverifyObserve(p.version, v)))
       case NotVerified => (r, Ended(Review("bitcoin_reverification_failed")))
       case Failing(t') => (r, t'))
    case ReverifyObserve(version, v) =>
      (match RecordOnce(r, version, ObservedKey(w, version, v), v)
       case Ok(recorded) => (recorded.rows, InReverify(f, ReverifyFinish(version, v)))
       case Err(e) => (r, Ended(Raised(e))))
    case ReverifyFinish(version, v) =>
      Transition(r, f, ReverifiedKey(version, w.micros(v.verifiedAt)), None, Ended(Done))
  }

  // ---------------------------------------------------------------- the delivery handler

  function DeliverAct(w: World, limits: Limits, r: Rows, clock: Time, t: DeliverPoint, reply: Reply): (Rows, Thread) {
    match t
    case DeliverLoad =>
      if !VerifiedStage(r.fulfillment) then (r, Ended(Review("delivery_state_invalid")))
      else if r.calendarAt.None? then (r, Ended(Review("proof_submission_time_missing")))
      else (r, InDelivery(DeliverRead(Load(r))))
    case DeliverRead(view) =>
      (match Latest(w, r)
       case Err(e) => (r, Ended(Raised(e)))
       case Ok(None) => (r, Ended(Review("proof_missing")))
       case Ok(Some(p)) =>
         (r, if Some(p.calendarAt) != view.calendarAt then Ended(Review("proof_submission_time_conflict"))
           else InDelivery(DeliverCheck(p))))
    case DeliverCheck(p) =>
      (match GetVerified(r, p.version)
       case Err(e) => (r, Ended(Raised(e)))
       case Ok(None) => (r, Ended(Review("delivery_verification_metadata_missing")))
       case Ok(Some(v)) =>
         (r, if p.verification != Some(v) then Ended(Review("delivery_proof_metadata_mismatch"))
           else InDelivery(DeliverObservation(p))))
    case DeliverObservation(p) =>
      (match LatestObservation(r.observations, p.version)
       case None => (r, Ended(Review("delivery_confirmation_observation_missing")))
       case Some(i) =>
         (r, if r.observations[i].confirmations < 1 then Ended(Review("delivery_confirmation_observation_missing"))
             else InDelivery(DeliverBuild(p, r.observations[i].confirmations))))
    case DeliverBuild(p, n) =>
      (match reply
       case Zip(data) => (r, InDelivery(DeliverPut(p.version, n, data)))
       case ZipRefused(e) => (r, Ended(Raised(e)))
       case _ => (r, InDelivery(t)))
    case DeliverPut(version, n, data) =>
      (match PutBundle(w, r, version, data)
       case Ok(r') => (r', InDelivery(DeliverEnqueue(version, n)))
       case Err(e) => (r, Ended(Raised(e))))
    case DeliverEnqueue(version, n) =>
      (match EnqueueNotice(r, O.Initial, version, n, clock, limits.horizon, limits.maxAttempts)
       case Ok(r') => (r', Ended(Done))
       case Err(e) => (r, Ended(Raised(e))))
  }

  // ---------------------------------------------------------------- the confirmation handler

  function ConfirmAct(w: World, limits: Limits, r: Rows, clock: Time, t: ConfirmPoint, reply: Reply): (Rows, Thread) {
    match t
    case ConfirmLoad =>
      (r, if !VerifiedStage(r.fulfillment) then Ended(Review("confirmation_monitor_state_invalid"))
        else InConfirmation(ConfirmRead))
    case ConfirmRead =>
      (match Latest(w, r)
       case Err(e) => (r, Ended(Raised(e)))
       case Ok(None) => (r, Ended(Review("proof_missing")))
       case Ok(Some(p)) =>
         (r, if !w.valid(r.digest, p.data) then Ended(Review("stored_proof_invalid"))
           else InConfirmation(ConfirmStored(p))))
    case ConfirmStored(p) =>
      (match GetVerified(r, p.version)
       case Err(e) => (r, Ended(Raised(e)))
       case Ok(None) => (r, Ended(Review("confirmation_monitor_evidence_missing")))
       case Ok(Some(v)) => (r, InConfirmation(ConfirmPrevious(p, v))))
    case ConfirmPrevious(p, stored) =>
      (match LatestObservation(r.observations, p.version)
       case None => (r, Ended(Review("confirmation_monitor_evidence_missing")))
       case Some(i) => (r, InConfirmation(ConfirmAsk(p, stored, r.observations[i].confirmations))))
    case ConfirmAsk(p, stored, previous) =>
      (match Ask(clock, reply)
       case Verified(v) =>
         if !SameEvidence(Some(stored), v) then (r, Ended(Review("bitcoin_reverification_metadata_conflict")))
         else if v.confirmations < previous then (r, Ended(Review("bitcoin_confirmation_count_decreased")))
         else (r, InConfirmation(ConfirmObserve(p.version, v)))
       case NotVerified => (r, Ended(Review("bitcoin_confirmation_lost")))
       case Failing(t') => (r, t'))
    case ConfirmObserve(version, v) =>
      (match RecordOnce(r, version, ObservedKey(w, version, v), v)
       case Err(e) => (r, Ended(Raised(e)))
       case Ok(recorded) =>
         (recorded.rows, if v.confirmations < 6 then Ended(NotYet("bitcoin_final_confirmation_pending"))
                         else InConfirmation(ConfirmEnqueue(version, v.confirmations))))
    case ConfirmEnqueue(version, n) =>
      (match EnqueueNotice(r, O.Final, version, n, clock, limits.horizon, limits.maxAttempts)
       case Ok(r') => (r', Ended(Done))
       case Err(e) => (r, Ended(Raised(e))))
  }

  /** One step of one thread; a thread that has ended stays as it is. */
  function Act(w: World, limits: Limits, r: Rows, clock: Time, t: Thread, reply: Reply): (Rows, Thread) {
    match t
    case InStamp(p) => StampAct(w, r, clock, p, reply)
    case InUpgrade(p) => UpgradeAct(w, r, clock, p, reply)
    case InReverify(f, p) => ReverifyAct(w, r, clock, f, p, reply)
    case InDelivery(p) => DeliverAct(w, limits, r, clock, p, reply)
    case InConfirmation(p) => ConfirmAct(w, limits, r, clock, p, reply)
    case Ended(_) => (r, t)
  }

  // ---------------------------------------------------------------- the system of one order

  datatype Sys = Sys(rows: Rows, clock: Time, threads: map<nat, Thread>)

  datatype HandlerKind = Stamp | Upgrade | Delivery | Confirmation

  datatype Step =
    | Tick(micros: nat)
    | MoneyMoves(target: Payment)
    | Start(thread: nat, kind: HandlerKind)
    | Advance(thread: nat, reply: Reply)
    | Terminal(code: string)
    | Dispatcher(step: O.Step)
    | Accepted(claim: O.Claim, id: string, status: int)
    | EmailEvent(email: Email)

  function FirstOf(k: HandlerKind): Thread {
    match k
    case Stamp => InStamp(StampLoad)
    case Upgrade => InUpgrade(UpgradeLoad)
    case Delivery => InDelivery(DeliverLoad)
    case Confirmation => InConfirmation(ConfirmLoad)
  }

  /** Jobs, and so handlers and terminal failures, exist only for orders past `awaiting_payment`. */
  ghost function Next(w: World, limits: Limits, s: Sys, step: Step): Sys {
    match step
    case Tick(micros) => s.(clock := s.clock + micros)
    case MoneyMoves(target) => s.(rows := PaymentChanges(s.rows, target))
    case Start(id, kind) =>
      if s.rows.fulfillment == AwaitingPayment || id in s.threads then s
      else s.(threads := s.threads[id := FirstOf(kind)])
    case Advance(id, reply) =>
      if id !in s.threads then s
      else
        var (rows, t) := Act(w, limits, s.rows, s.clock, s.threads[id], reply);
        Sys(rows, s.clock, s.threads[id := t])
    case Terminal(code) =>
      if s.rows.fulfillment == AwaitingPayment then s
      else
        (match TransitionOnce(s.rows, InManualReview, WorkerTerminal(code), None)
         case Ok(rows) => s.(rows := rows)
         case Err(_) => s)
    case Dispatcher(step) =>
      if !DispatcherStep(step) then s else s.(rows := s.rows.(box := O.Next(s.rows.box, step)))
    case Accepted(c, id, status) =>
      (match AcceptNotice(w, s.rows, c, id, status, s.clock)
       case Ok(rows) => s.(rows := rows)
       case Err(_) => s)
    case EmailEvent(e) =>
      (match Webhook(w, s.rows, e)
       case Ok(result) => s.(rows := result.0)
       case Err(_) => s)
  }

  ghost function Run(w: World, limits: Limits, s: Sys, steps: seq<Step>): Sys
    decreases |steps|
  {
    if steps == [] then s else Run(w, limits, Next(w, limits, s, steps[0]), steps[1..])
  }

  function Fresh(ref: string, digest: bytes): Rows {
    Rows(ref, digest, CheckoutOpen, AwaitingPayment, None, [], map[], [], map[], map[], O.Box(map[], 0), [])
  }

  // ---------------------------------------------------------------- what a thread may rely on

  ghost predicate SomeConfirmed(r: Rows) { exists v :: Confirmed(r.verifications, r.observations, v) }

  ghost predicate AfterCalendar(r: Rows, v: Verification) { r.calendarAt.Some? && r.calendarAt.value <= v.verifiedAt }

  ghost predicate MayAppend(w: World, r: Rows, clock: Time, p: StoredProof) {
    w.valid(r.digest, p.data) && p.sha == w.sha(p.data) && p.calendarAt <= clock
  }

  ghost predicate StampInv(w: World, r: Rows, clock: Time, t: StampPoint) {
    match t
    case StampAppend(p) => MayAppend(w, r, clock, p)
    case StampReplayStart(_, _) | StampReplayEnd(_, _) | StampRespond(_) | StampPersist(_) => |r.proofs| > 0
    case _ => true
  }

  ghost predicate UpgradeInv(w: World, r: Rows, clock: Time, t: UpgradePoint) {
    match t
    case UpgradeRead(view) => Stage(view.fulfillment) <= Stage(r.fulfillment)
    case UpgradeSubmit(p) => p.calendarAt <= clock && |r.proofs| > 0
    case UpgradeAppend(p) => MayAppend(w, r, clock, p)
    case UpgradeVerify(_) => |r.proofs| > 0
    case UpgradePut(_, v) => AfterCalendar(r, v)
    case UpgradeFinish(_) => |r.proofs| > 0 && SomeConfirmed(r)
    case _ => true
  }

  ghost predicate ReverifyInv(r: Rows, f: Fulfillment, t: ReverifyPoint) {
    && VerifiedStage(f) && Stage(f) <= Stage(r.fulfillment)
    && (t.ReverifyFinish? ==> |r.proofs| > 0 && SomeConfirmed(r))
  }

  /** True of a thread from its last own step on, whatever the other threads do. */
  ghost predicate ThreadInv(w: World, r: Rows, clock: Time, t: Thread) {
    match t
    case InStamp(p) => StampInv(w, r, clock, p)
    case InUpgrade(p) => UpgradeInv(w, r, clock, p)
    case InReverify(f, p) => ReverifyInv(r, f, p)
    case _ => true
  }

  ghost predicate ThreadsInv(w: World, r: Rows, clock: Time, threads: map<nat, Thread>) {
    && (threads != map[] ==> r.fulfillment != AwaitingPayment)
    && (forall id {:trigger ThreadInv(w, r, clock, threads[id])} :: id in threads ==>
          ThreadInv(w, r, clock, threads[id]))
  }

  ghost predicate ClockInv(r: Rows, clock: Time) { r.calendarAt.Some? ==> r.calendarAt.value <= clock }

  ghost predicate SysInv(w: World, s: Sys) {
    Inv(w, s.rows) && ClockInv(s.rows, s.clock) && ThreadsInv(w, s.rows, s.clock, s.threads)
  }
}
