/** Evidence follows state, however the handlers are cut, rerun or overlapped. */
module FulfillmentInvariant {
  import opened Prelude
  import opened Orders
  import opened Evidence
  import opened EvidenceInvariant
  import opened FulfillmentHandlers
  import O = Outbox
  import OP = OutboxProperties

  lemma SomeConfirmedGrows(r: Rows, r': Rows)
    requires SomeConfirmed(r) && Grown(r, r')
    ensures SomeConfirmed(r')
  {
    var v :| Confirmed(r.verifications, r.observations, v);
    ConfirmedGrows(r, r', v);
  }

  /** What a thread relies on survives every other transaction and the passing of time. */
  lemma ThreadSurvives(w: World, r: Rows, r': Rows, clock: Time, clock': Time, t: Thread)
    requires ThreadInv(w, r, clock, t) && Grown(r, r') && clock <= clock'
    ensures ThreadInv(w, r', clock', t)
  {
    if SomeConfirmed(r) { SomeConfirmedGrows(r, r'); }
  }

  lemma ThreadsSurvive(w: World, r: Rows, r': Rows, clock: Time, clock': Time, threads: map<nat, Thread>)
    requires ThreadsInv(w, r, clock, threads) && Grown(r, r') && clock <= clock'
    ensures ThreadsInv(w, r', clock', threads)
  {
    forall id | id in threads ensures ThreadInv(w, r', clock', threads[id]) {
      assert ThreadInv(w, r, clock, threads[id]);
      ThreadSurvives(w, r, r', clock, clock', threads[id]);
    }
  }

  // ---------------------------------------------------------------- one thread step keeps the invariant

  ghost predicate StepKeeps(w: World, r: Rows, clock: Time, r': Rows, t': Thread) {
    Inv(w, r') && Extends(r, r') && ClockInv(r', clock) && ThreadInv(w, r', clock, t')
  }

  ghost predicate MayAct(w: World, r: Rows, clock: Time, t: Thread) {
    Inv(w, r) && ClockInv(r, clock) && ThreadInv(w, r, clock, t) && r.fulfillment != AwaitingPayment
  }

  /** A step that only reads keeps the invariant as soon as the thread knows what it relies on. */
  lemma Stay(w: World, r: Rows, clock: Time, t': Thread)
    requires Inv(w, r) && ClockInv(r, clock) && ThreadInv(w, r, clock, t')
    ensures StepKeeps(w, r, clock, r, t')
  {
    ExtendsRefl(r);
  }

  lemma LatestFacts(w: World, r: Rows)
    requires ProofsInv(w, r.digest, r.calendarAt, r.proofs)
    ensures match Latest(w, r)
            case Err(_) => false
            case Ok(None) => |r.proofs| == 0
            case Ok(Some(p)) =>
              && |r.proofs| > 0 && p.version == |r.proofs| && r.calendarAt == Some(p.calendarAt)
              && p.digest == r.digest && w.valid(r.digest, p.data)
  {
    LatestIsLast(r.proofs);
  }

  lemma TransitionStep(w: World, r: Rows, clock: Time, target: Fulfillment, key: EventKey, at: Option<Time>,
                       next: Thread)
    requires Inv(w, r) && ClockInv(r, clock) && r.fulfillment != AwaitingPayment
    requires target != AwaitingPayment && !key.ResendDelivered? && KeyFits(key, target) && MayEnter(r, target)
    requires at.Some? ==> |r.proofs| > 0
    requires ThreadInv(w, r, clock, next)
    ensures var (r', t') := Transition(r, target, key, at, next); StepKeeps(w, r, clock, r', t')
  {
    var moved := TransitionOnce(r, target, key, at);
    if moved.Err? { Stay(w, r, clock, Ended(Raised(moved.error))); return; }
    TransitionKeeps(w, r, target, key, at, moved.value);
    ThreadSurvives(w, r, moved.value, clock, clock, next);
  }

  lemma AppendStep(w: World, r: Rows, clock: Time, p: StoredProof, next: Thread, failed: Thread)
    requires Inv(w, r) && ClockInv(r, clock) && MayAppend(w, r, clock, p)
    requires next == InStamp(StampRespond(p.calendarAt)) || next == InUpgrade(UpgradeVerify(p))
    requires failed == InStamp(StampConflict(p)) || failed == InUpgrade(UpgradeConflict(p))
    ensures match Append(w, r, p)
            case Ok(r') => StepKeeps(w, r, clock, r', next)
            case Err(_) => StepKeeps(w, r, clock, r, failed)
  {
    if Append(w, r, p).Err? { Stay(w, r, clock, failed); return; }
    AppendKeeps(w, r, p, Append(w, r, p).value);
  }

  lemma PutStep(w: World, r: Rows, clock: Time, version: nat, v: Verification)
    requires Inv(w, r) && ClockInv(r, clock) && AfterCalendar(r, v)
    ensures match PutVerified(r, version, v)
            case Ok(r') => StepKeeps(w, r, clock, r', InUpgrade(UpgradeObserve(version, v)))
            case Err(e) => StepKeeps(w, r, clock, r, Ended(Raised(e)))
  {
    var put := PutVerified(r, version, v);
    if put.Err? { Stay(w, r, clock, Ended(Raised(put.error))); return; }
    PutVerifiedKeeps(w, r, version, v, put.value);
  }

  /** After an observation is recorded a thread may rely on its version being confirmed. */
  lemma RecordStep(w: World, r: Rows, clock: Time, version: nat, v: Verification, next: Thread)
    requires Inv(w, r) && ClockInv(r, clock)
    requires next.InUpgrade? ==> next.upgrade.UpgradeFinish?
    requires next.InReverify? ==> VerifiedStage(next.state) && Stage(next.state) <= Stage(r.fulfillment)
    requires !next.InStamp?
    ensures match RecordOnce(r, version, ObservedKey(w, version, v), v)
            case Ok(recorded) => StepKeeps(w, r, clock, recorded.rows, next)
            case Err(e) => StepKeeps(w, r, clock, r, Ended(Raised(e)))
  {
    var recorded := RecordOnce(r, version, ObservedKey(w, version, v), v);
    if recorded.Err? { Stay(w, r, clock, Ended(Raised(recorded.error))); return; }
    RecordOnceKeeps(w, r, version, ObservedKey(w, version, v), v, recorded.value.rows, recorded.value.row);
  }

  lemma BundleStep(w: World, r: Rows, clock: Time, version: nat, n: int, data: bytes)
    requires Inv(w, r) && ClockInv(r, clock)
    ensures match PutBundle(w, r, version, data)
            case Ok(r') => StepKeeps(w, r, clock, r', InDelivery(DeliverEnqueue(version, n)))
            case Err(e) => StepKeeps(w, r, clock, r, Ended(Raised(e)))
  {
    var put := PutBundle(w, r, version, data);
    if put.Err? { Stay(w, r, clock, Ended(Raised(put.error))); return; }
    PutBundleKeeps(w, r, version, data, put.value);
  }

  lemma EnqueueStep(w: World, limits: Limits, r: Rows, clock: Time, kind: O.Kind, version: nat, n: int)
    requires Inv(w, r) && ClockInv(r, clock)
    ensures match EnqueueNotice(r, kind, version, n, clock, limits.horizon, limits.maxAttempts)
            case Ok(r') => StepKeeps(w, r, clock, r', Ended(Done))
            case Err(e) => StepKeeps(w, r, clock, r, Ended(Raised(e)))
  {
    var sent := EnqueueNotice(r, kind, version, n, clock, limits.horizon, limits.maxAttempts);
    if sent.Err? { Stay(w, r, clock, Ended(Raised(sent.error))); return; }
    EnqueueKeeps(w, r, kind, version, n, clock, limits.horizon, limits.maxAttempts, sent.value);
  }

  predicate StampReads(t: StampPoint) { t.StampLoad? || t.StampRead? || t.StampSubmit? || t.StampConflict? }

  lemma StampReadStep(w: World, r: Rows, clock: Time, t: StampPoint, reply: Reply)
    requires ProofsInv(w, r.digest, r.calendarAt, r.proofs) && StampInv(w, r, clock, t) && StampReads(t)
    ensures StampAct(w, r, clock, t, reply).0 == r && ThreadInv(w, r, clock, StampAct(w, r, clock, t, reply).1)
  {
    LatestFacts(w, r);
  }

  lemma StampKeeps(w: World, r: Rows, clock: Time, t: StampPoint, reply: Reply)
    requires MayAct(w, r, clock, InStamp(t))
    ensures var (r', t') := StampAct(w, r, clock, t, reply); StepKeeps(w, r, clock, r', t')
  {
    match t
    case StampReplayStart(v, at) =>
      TransitionStep(w, r, clock, Stamping, ReplayStart(v), Some(at), InStamp(StampReplayEnd(v, at)));
    case StampReplayEnd(v, at) => TransitionStep(w, r, clock, CalendarPending, StampReplay(v), Some(at), Ended(Done));
    case StampStarting => StampStartStep(w, r, clock, reply);
    case StampAppend(p) => AppendStep(w, r, clock, p, InStamp(StampRespond(p.calendarAt)), InStamp(StampConflict(p)));
    case StampRespond(at) => TransitionStep(w, r, clock, Stamping, StampResponse, Some(at), InStamp(StampPersist(at)));
    case StampPersist(at) => TransitionStep(w, r, clock, CalendarPending, StampPersisted, Some(at), Ended(Done));
    case _ =>
      StampReadStep(w, r, clock, t, reply);
      Stay(w, r, clock, StampAct(w, r, clock, t, reply).1);
  }

  lemma StampStartStep(w: World, r: Rows, clock: Time, reply: Reply)
    requires MayAct(w, r, clock, InStamp(StampStarting))
    ensures var (r', t') := StampAct(w, r, clock, StampStarting, reply); StepKeeps(w, r, clock, r', t')
  {
    TransitionStep(w, r, clock, Stamping, StampStart, None, InStamp(StampSubmit));
  }

  predicate UpgradeReads(t: UpgradePoint) {
    t.UpgradeLoad? || t.UpgradeRead? || t.UpgradeSubmit? || t.UpgradeConflict? || t.UpgradeVerify?
  }

  lemma UpgradeReadStep(w: World, r: Rows, clock: Time, t: UpgradePoint, reply: Reply)
    requires ProofsInv(w, r.digest, r.calendarAt, r.proofs) && ClockInv(r, clock)
    requires UpgradeInv(w, r, clock, t) && UpgradeReads(t)
    ensures UpgradeAct(w, r, clock, t, reply).0 == r && ThreadInv(w, r, clock, UpgradeAct(w, r, clock, t, reply).1)
  {
    LatestFacts(w, r);
  }

  lemma UpgradeKeeps(w: World, r: Rows, clock: Time, t: UpgradePoint, reply: Reply)
    requires MayAct(w, r, clock, InUpgrade(t))
    ensures var (r', t') := UpgradeAct(w, r, clock, t, reply); StepKeeps(w, r, clock, r', t')
  {
    match t
    case UpgradeAppend(p) => AppendStep(w, r, clock, p, InUpgrade(UpgradeVerify(p)), InUpgrade(UpgradeConflict(p)));
    case UpgradePut(version, v) => PutStep(w, r, clock, version, v);
    case UpgradeObserve(version, v) => RecordStep(w, r, clock, version, v, InUpgrade(UpgradeFinish(version)));
    case UpgradeFinish(version) =>
      TransitionStep(w, r, clock, BitcoinVerified, BitcoinVerifiedKey(version), None, Ended(Done));
    case _ =>
      UpgradeReadStep(w, r, clock, t, reply);
      Stay(w, r, clock, UpgradeAct(w, r, clock, t, reply).1);
  }

  lemma ReverifyKeeps(w: World, r: Rows, clock: Time, f: Fulfillment, t: ReverifyPoint, reply: Reply)
    requires MayAct(w, r, clock, InReverify(f, t))
    ensures var (r', t') := ReverifyAct(w, r, clock, f, t, reply); StepKeeps(w, r, clock, r', t')
  {
    match t
    case ReverifyAsk(p) => ReverifyAskStep(w, r, clock, f, p, reply);
    case ReverifyObserve(version, v) => RecordStep(w, r, clock, version, v, InReverify(f, ReverifyFinish(version, v)));
    case ReverifyFinish(version, v) => ReverifyFinishStep(w, r, clock, f, version, v);
  }

  lemma ReverifyAskStep(w: World, r: Rows, clock: Time, f: Fulfillment, p: StoredProof, reply: Reply)
    requires MayAct(w, r, clock, InReverify(f, ReverifyAsk(p)))
    ensures var (r', t') := ReverifyAct(w, r, clock, f, ReverifyAsk(p), reply); StepKeeps(w, r, clock, r', t')
  {
    Stay(w, r, clock, ReverifyAct(w, r, clock, f, ReverifyAsk(p), reply).1);
  }

  /** The order may have moved on since it was loaded; then the transition it asks for is refused. */
  lemma ReverifyFinishStep(w: World, r: Rows, clock: Time, f: Fulfillment, version: nat, v: Verification)
    requires MayAct(w, r, clock, InReverify(f, ReverifyFinish(version, v)))
    ensures var (r', t') := Transition(r, f, ReverifiedKey(version, w.micros(v.verifiedAt)), None, Ended(Done));
            StepKeeps(w, r, clock, r', t')
  {
    assert MayEnter(r, f);
    TransitionStep(w, r, clock, f, ReverifiedKey(version, w.micros(v.verifiedAt)), None, Ended(Done));
  }

  lemma DeliverReadStep(w: World, limits: Limits, r: Rows, clock: Time, t: DeliverPoint, reply: Reply)
    requires !t.DeliverPut? && !t.DeliverEnqueue?
    ensures var (r', t') := DeliverAct(w, limits, r, clock, t, reply); r' == r && (t'.InDelivery? || t'.Ended?)
  {
  }

  lemma DeliverKeeps(w: World, limits: Limits, r: Rows, clock: Time, t: DeliverPoint, reply: Reply)
    requires MayAct(w, r, clock, InDelivery(t))
    ensures var (r', t') := DeliverAct(w, limits, r, clock, t, reply); StepKeeps(w, r, clock, r', t')
  {
    match t
    case DeliverPut(version, n, data) => BundleStep(w, r, clock, version, n, data);
    case DeliverEnqueue(version, n) => EnqueueStep(w, limits, r, clock, O.Initial, version, n);
    case _ =>
      DeliverReadStep(w, limits, r, clock, t, reply);
      Stay(w, r, clock, DeliverAct(w, limits, r, clock, t, reply).1);
  }

  lemma ConfirmReadStep(w: World, limits: Limits, r: Rows, clock: Time, t: ConfirmPoint, reply: Reply)
    requires !t.ConfirmObserve? && !t.ConfirmEnqueue?
    ensures var (r', t') := ConfirmAct(w, limits, r, clock, t, reply); r' == r && (t'.InConfirmation? || t'.Ended?)
  {
  }

  lemma ConfirmKeeps(w: World, limits: Limits, r: Rows, clock: Time, t: ConfirmPoint, reply: Reply)
    requires MayAct(w, r, clock, InConfirmation(t))
    ensures var (r', t') := ConfirmAct(w, limits, r, clock, t, reply); StepKeeps(w, r, clock, r', t')
  {
    match t
    case ConfirmObserve(version, v) =>
      RecordStep(w, r, clock, version, v,
                 if v.confirmations < 6 then Ended(NotYet("bitcoin_final_confirmation_pending"))
                 else InConfirmation(ConfirmEnqueue(version, v.confirmations)));
    case ConfirmEnqueue(version, n) => EnqueueStep(w, limits, r, clock, O.Final, version, n);
    case _ =>
      ConfirmReadStep(w, limits, r, clock, t, reply);
      Stay(w, r, clock, ConfirmAct(w, limits, r, clock, t, reply).1);
  }

  lemma ActKeeps(w: World, limits: Limits, r: Rows, clock: Time, t: Thread, reply: Reply)
    requires MayAct(w, r, clock, t)
    ensures var (r', t') := Act(w, limits, r, clock, t, reply); StepKeeps(w, r, clock, r', t')
  {
    match t
    case InStamp(p) => StampKeeps(w, r, clock, p, reply);
    case InUpgrade(p) => UpgradeKeeps(w, r, clock, p, reply);
    case InReverify(f, p) => ReverifyKeeps(w, r, clock, f, p, reply);
    case InDelivery(p) => DeliverKeeps(w, limits, r, clock, p, reply);
    case InConfirmation(p) => ConfirmKeeps(w, limits, r, clock, p, reply);
    case Ended(_) => Stay(w, r, clock, t);
  }

  // ---------------------------------------------------------------- every step of the system

  /** Rows change, threads do not. */
  lemma RowsMove(w: World, s: Sys, rows: Rows)
    requires SysInv(w, s) && Inv(w, rows) && Extends(s.rows, rows) && rows.calendarAt == s.rows.calendarAt
    ensures SysInv(w, s.(rows := rows))
  {
    ThreadsSurvive(w, s.rows, rows, s.clock, s.clock, s.threads);
  }

  lemma AdvanceKeeps(w: World, limits: Limits, s: Sys, id: nat, reply: Reply)
    requires SysInv(w, s) && id in s.threads
    ensures var s' := Next(w, limits, s, Advance(id, reply)); SysInv(w, s') && Extends(s.rows, s'.rows)
  {
    var (rows, t) := Act(w, limits, s.rows, s.clock, s.threads[id], reply);
    assert ThreadInv(w, s.rows, s.clock, s.threads[id]);
    ActKeeps(w, limits, s.rows, s.clock, s.threads[id], reply);
    ThreadsSurvive(w, s.rows, rows, s.clock, s.clock, s.threads);
    var threads := s.threads[id := t];
    forall i | i in threads ensures ThreadInv(w, rows, s.clock, threads[i]) {
      if i != id { assert ThreadInv(w, rows, s.clock, s.threads[i]); }
    }
    assert Next(w, limits, s, Advance(id, reply)) == Sys(rows, s.clock, threads);
  }

  lemma StartKeeps(w: World, limits: Limits, s: Sys, id: nat, kind: HandlerKind)
    requires SysInv(w, s)
    ensures SysInv(w, Next(w, limits, s, Start(id, kind)))
  {
    if s.rows.fulfillment != AwaitingPayment && id !in s.threads {
      var threads := s.threads[id := FirstOf(kind)];
      forall i | i in threads ensures ThreadInv(w, s.rows, s.clock, threads[i]) {
        if i != id { assert ThreadInv(w, s.rows, s.clock, s.threads[i]); }
      }
      assert Next(w, limits, s, Start(id, kind)) == s.(threads := threads);
    }
  }

  lemma TerminalKeeps(w: World, limits: Limits, s: Sys, code: string)
    requires SysInv(w, s)
    ensures var s' := Next(w, limits, s, Terminal(code)); SysInv(w, s') && Extends(s.rows, s'.rows)
  {
    ExtendsRefl(s.rows);
    var moved := TransitionOnce(s.rows, InManualReview, WorkerTerminal(code), None);
    if s.rows.fulfillment != AwaitingPayment && moved.Ok? {
      TransitionKeeps(w, s.rows, InManualReview, WorkerTerminal(code), None, moved.value);
      RowsMove(w, s, moved.value);
    }
  }

  lemma OutsideKeeps(w: World, limits: Limits, s: Sys, step: Step)
    requires SysInv(w, s) && (step.MoneyMoves? || step.Dispatcher? || step.Accepted? || step.EmailEvent?)
    ensures var s' := Next(w, limits, s, step); SysInv(w, s') && Extends(s.rows, s'.rows)
  {
    ExtendsRefl(s.rows);
    match step
    case MoneyMoves(target) =>
      PaymentKeeps(w, s.rows, target);
      RowsMove(w, s, PaymentChanges(s.rows, target));
    case Dispatcher(d) =>
      if DispatcherStep(d) {
        DispatcherKeeps(w, s.rows, d);
        RowsMove(w, s, s.rows.(box := O.Next(s.rows.box, d)));
      }
    case Accepted(c, id, status) =>
      var r := AcceptNotice(w, s.rows, c, id, status, s.clock);
      if r.Ok? { AcceptKeeps(w, s.rows, c, id, status, s.clock, r.value); RowsMove(w, s, r.value); }
    case EmailEvent(e) =>
      var r := Webhook(w, s.rows, e);
      if r.Ok? { WebhookKeeps(w, s.rows, e, r.value.0, r.value.1); RowsMove(w, s, r.value.0); }
  }

  lemma NextKeeps(w: World, limits: Limits, s: Sys, step: Step)
    requires SysInv(w, s)
    ensures var s' := Next(w, limits, s, step); SysInv(w, s') && Extends(s.rows, s'.rows)
  {
    match step
    case Tick(micros) =>
      ExtendsRefl(s.rows);
      ThreadsSurvive(w, s.rows, s.rows, s.clock, s.clock + micros, s.threads);
    case Start(id, kind) => ExtendsRefl(s.rows); StartKeeps(w, limits, s, id, kind);
    case Advance(id, reply) =>
      ExtendsRefl(s.rows);
      if id in s.threads { AdvanceKeeps(w, limits, s, id, reply); }
    case Terminal(code) => TerminalKeeps(w, limits, s, code);
    case _ => OutsideKeeps(w, limits, s, step);
  }

  /** Evidence rows and the order's progress are never lost, over every run. */
  lemma {:induction false} RunKeeps(w: World, limits: Limits, s: Sys, steps: seq<Step>)
    requires SysInv(w, s)
    ensures SysInv(w, Run(w, limits, s, steps)) && Grown(s.rows, Run(w, limits, s, steps).rows)
    decreases |steps|
  {
    ExtendsRefl(s.rows);
    if steps != [] {
      var s' := Next(w, limits, s, steps[0]);
      NextKeeps(w, limits, s, steps[0]);
      RunKeeps(w, limits, s', steps[1..]);
      GrownTrans(s.rows, s'.rows, Run(w, limits, s, steps).rows);
    }
  }

  function Start0(ref: string, digest: bytes, clock: Time): Sys { Sys(Fresh(ref, digest), clock, map[]) }

  lemma FreshInv(w: World, ref: string, digest: bytes, clock: Time)
    ensures SysInv(w, Start0(ref, digest, clock))
  {
    OP.EmptyInv();
  }

  // ---------------------------------------------------------------- main results

  /** Some version is verified and observed with the same verifier, height, hash and policy. */
  ghost predicate VerifiedWithEvidence(r: Rows) {
    exists v, i ::
      && v in r.verifications && 0 <= i < |r.observations|
      && r.observations[i].version == v && r.observations[i].block == r.verifications[v].block
  }

  ghost predicate DeliveredWithEvidence(w: World, r: Rows) {
    exists v ::
      && v in r.verifications && v in r.bundles && r.bundles[v].sha == w.sha(r.bundles[v].data)
      && KeyOf(r, O.Initial, v) in r.box.notices
      && r.box.notices[KeyOf(r, O.Initial, v)].row.state == O.Delivered
      && HasDelivery(r.emails, r.box.notices[KeyOf(r, O.Initial, v)].row.providerId)
  }

  /**
   Evidence follows state, however the handlers are cut, rerun or overlapped: versions are exactly 1..n with the
   order's digest and calendar time; a pending order has version 1; a verified one has an agreeing verification and
   observation; a delivered one also has a checksum-valid bundle and an initial notice delivered on a real event.
   */
  lemma EvidenceFollowsState(w: World, limits: Limits, ref: string, digest: bytes, clock: Time, steps: seq<Step>)
    ensures var r := Run(w, limits, Start0(ref, digest, clock), steps).rows;
            && (forall i :: 0 <= i < |r.proofs| ==>
                  && r.proofs[i].version == i + 1 && r.proofs[i].digest == digest
                  && Some(r.proofs[i].calendarAt) == r.calendarAt && w.valid(digest, r.proofs[i].data))
            && (r.fulfillment in {CalendarPending, BitcoinVerified, Delivered} ==> |r.proofs| > 0)
            && (r.fulfillment in {BitcoinVerified, Delivered} ==> VerifiedWithEvidence(r))
            && (r.fulfillment == Delivered ==> DeliveredWithEvidence(w, r))
  {
    var s0 := Start0(ref, digest, clock);
    FreshInv(w, ref, digest, clock);
    RunKeeps(w, limits, s0, steps);
    var r := Run(w, limits, s0, steps).rows;
    if VerifiedStage(r.fulfillment) { ConfirmedMeansEvidence(w, r); }
    if r.fulfillment == Delivered { HandedOverMeansEvidence(w, r); }
  }

  lemma ConfirmedMeansEvidence(w: World, r: Rows)
    requires Inv(w, r) && VerifiedStage(r.fulfillment)
    ensures VerifiedWithEvidence(r)
  {
    var v :| Confirmed(r.verifications, r.observations, v);
    var i :| 0 <= i < |r.observations| && r.observations[i].version == v;
    assert Agrees(r.verifications, r.observations[i]);
  }

  lemma HandedOverMeansEvidence(w: World, r: Rows)
    requires Inv(w, r) && r.fulfillment == Delivered
    ensures DeliveredWithEvidence(w, r)
  {
    var v :| HandedOver(r, v);
    var key := KeyOf(r, O.Initial, v);
    assert NoticeBound(r.ref, key, r.box.notices[key].row, r.observations, r.emails);
  }

  /** Every verification was made no earlier than the calendars answered, in every run. */
  lemma VerifiedAfterCalendar(w: World, limits: Limits, ref: string, digest: bytes, clock: Time, steps: seq<Step>,
                              v: nat)
    requires v in Run(w, limits, Start0(ref, digest, clock), steps).rows.verifications
    ensures var r := Run(w, limits, Start0(ref, digest, clock), steps).rows;
            1 <= v <= |r.proofs| && r.calendarAt.Some? && r.calendarAt.value <= r.verifications[v].verifiedAt
  {
    FreshInv(w, ref, digest, clock);
    RunKeeps(w, limits, Start0(ref, digest, clock), steps);
  }
}
