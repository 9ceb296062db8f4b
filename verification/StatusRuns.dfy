/** The status over runs: when it is sure to be answered, and concrete runs to the states where it matters. */
module StatusRuns {
  import opened Prelude
  import opened Orders
  import opened Evidence
  import opened EvidenceInvariant
  import opened FulfillmentHandlers
  import opened FulfillmentInvariant
  import opened FulfillmentRecovery
  import opened HandoverRecovery
  import opened Status
  import D = Delivery
  import O = Outbox

  // ---------------------------------------------------------------- no late version, always an answer

  /** Only the newest version was ever observed. */
  ghost predicate NewestOnly(r: Rows) {
    forall i :: 0 <= i < |r.observations| ==> r.observations[i].version == |r.proofs|
  }

  lemma NewestAnswers(w: World, r: Rows)
    requires Inv(w, r) && NewestOnly(r)
    ensures Project(w, Services(true, true), r).Some?
  {
    AnswersExactly(w, r);
    if VerifiedStage(r.fulfillment) {
      var v :| Confirmed(r.verifications, r.observations, v);
      assert v == |r.proofs|;
    }
    if r.fulfillment == Delivered {
      var v :| HandedOver(r, v);
      assert v == |r.proofs|;
    }
  }

  /** No step of the run appends a proof version once something has been observed. */
  ghost predicate NoLateVersion(w: World, limits: Limits, s: Sys, steps: seq<Step>)
    decreases |steps|
  {
    steps == [] ||
    (var s' := Next(w, limits, s, steps[0]);
     && (s'.rows.proofs != s.rows.proofs ==> s.rows.observations == [])
     && NoLateVersion(w, limits, s', steps[1..]))
  }

  /** What one step may do to the observations: nothing, or add one of the newest version. */
  ghost predicate ObservesNewest(r: Rows, r': Rows) {
    || r'.observations == r.observations
    || (&& r'.proofs == r.proofs && |r'.observations| == |r.observations| + 1 && r.observations <= r'.observations
        && r'.observations[|r.observations|].version == |r.proofs|)
  }

  lemma RecordObservesNewest(w: World, r: Rows, version: nat, key: ObservationKey, v: Verification)
    requires ProofsInv(w, r.digest, r.calendarAt, r.proofs) && RecordOnce(r, version, key, v).Ok?
    ensures ObservesNewest(r, RecordOnce(r, version, key, v).value.rows)
  {
    LatestIsLast(r.proofs);
  }

  lemma UpgradeObservesNewest(w: World, r: Rows, clock: Time, t: UpgradePoint, reply: Reply)
    requires ProofsInv(w, r.digest, r.calendarAt, r.proofs)
    ensures ObservesNewest(r, UpgradeAct(w, r, clock, t, reply).0)
  {
    if t.UpgradeObserve? {
      var key := ObservedKey(w, t.version, t.result);
      if RecordOnce(r, t.version, key, t.result).Ok? { RecordObservesNewest(w, r, t.version, key, t.result); }
    }
  }

  lemma ReverifyObservesNewest(w: World, r: Rows, clock: Time, f: Fulfillment, t: ReverifyPoint, reply: Reply)
    requires ProofsInv(w, r.digest, r.calendarAt, r.proofs)
    ensures ObservesNewest(r, ReverifyAct(w, r, clock, f, t, reply).0)
  {
    if t.ReverifyObserve? {
      var key := ObservedKey(w, t.version, t.result);
      if RecordOnce(r, t.version, key, t.result).Ok? { RecordObservesNewest(w, r, t.version, key, t.result); }
    }
  }

  lemma ConfirmObservesNewest(w: World, limits: Limits, r: Rows, clock: Time, t: ConfirmPoint, reply: Reply)
    requires ProofsInv(w, r.digest, r.calendarAt, r.proofs)
    ensures ObservesNewest(r, ConfirmAct(w, limits, r, clock, t, reply).0)
  {
    if t.ConfirmObserve? {
      var key := ObservedKey(w, t.version, t.result);
      if RecordOnce(r, t.version, key, t.result).Ok? { RecordObservesNewest(w, r, t.version, key, t.result); }
    }
  }

  /** A stamp handler writes proofs, the state and events, and nothing else. */
  predicate Untouched(r: Rows, r': Rows) {
    && r'.ref == r.ref && r'.digest == r.digest && r'.payment == r.payment
    && r'.verifications == r.verifications && r'.observations == r.observations && r'.bundles == r.bundles
    && r'.box == r.box && r'.emails == r.emails
  }

  lemma StampTouches(w: World, r: Rows, clock: Time, t: StampPoint, reply: Reply)
    ensures var (r', t') := StampAct(w, r, clock, t, reply); Untouched(r, r') && (t'.InStamp? || t'.Ended?)
  {
    match t
    case StampReplayStart(v, at) => TransitionTouches(r, Stamping, ReplayStart(v), Some(at));
    case StampReplayEnd(v, at) => TransitionTouches(r, CalendarPending, StampReplay(v), Some(at));
    case StampStarting => TransitionTouches(r, Stamping, StampStart, None);
    case StampAppend(p) => AppendTouches(w, r, p);
    case StampRespond(at) => TransitionTouches(r, Stamping, StampResponse, Some(at));
    case StampPersist(at) => TransitionTouches(r, CalendarPending, StampPersisted, Some(at));
    case _ =>
  }

  lemma TransitionTouches(r: Rows, target: Fulfillment, key: EventKey, at: Option<Time>)
    ensures var moved := TransitionOnce(r, target, key, at); moved.Ok? ==> Untouched(r, moved.value)
  {
  }

  lemma AppendTouches(w: World, r: Rows, p: StoredProof)
    ensures Append(w, r, p).Ok? ==> Untouched(r, Append(w, r, p).value)
  {
  }

  lemma DeliverObservesNothing(w: World, limits: Limits, r: Rows, clock: Time, t: DeliverPoint, reply: Reply)
    ensures DeliverAct(w, limits, r, clock, t, reply).0.observations == r.observations
  {
  }

  lemma ActObservesNewest(w: World, limits: Limits, r: Rows, clock: Time, t: Thread, reply: Reply)
    requires ProofsInv(w, r.digest, r.calendarAt, r.proofs)
    ensures ObservesNewest(r, Act(w, limits, r, clock, t, reply).0)
  {
    match t
    case InStamp(p) => StampTouches(w, r, clock, p, reply);
    case InUpgrade(p) => UpgradeObservesNewest(w, r, clock, p, reply);
    case InReverify(f, p) => ReverifyObservesNewest(w, r, clock, f, p, reply);
    case InDelivery(p) => DeliverObservesNothing(w, limits, r, clock, p, reply);
    case InConfirmation(p) => ConfirmObservesNewest(w, limits, r, clock, p, reply);
    case Ended(_) =>
  }

  lemma AcceptObservesNothing(w: World, r: Rows, c: O.Claim, id: string, status: int, now: Time)
    ensures AcceptNotice(w, r, c, id, status, now).Ok? ==>
              AcceptNotice(w, r, c, id, status, now).value.observations == r.observations
  {
  }

  lemma WebhookObservesNothing(w: World, r: Rows, e: Email)
    ensures Webhook(w, r, e).Ok? ==> Webhook(w, r, e).value.0.observations == r.observations
  {
  }

  lemma StepObservesNewest(w: World, limits: Limits, s: Sys, step: Step)
    requires SysInv(w, s)
    ensures ObservesNewest(s.rows, Next(w, limits, s, step).rows)
  {
    match step
    case Advance(id, reply) =>
      if id in s.threads { ActObservesNewest(w, limits, s.rows, s.clock, s.threads[id], reply); }
    case Accepted(c, id, status) => AcceptObservesNothing(w, s.rows, c, id, status, s.clock);
    case EmailEvent(e) => WebhookObservesNothing(w, s.rows, e);
    case _ =>
  }

  lemma NewestOnlyStep(r: Rows, r': Rows)
    requires NewestOnly(r) && ObservesNewest(r, r') && (r'.proofs != r.proofs ==> r.observations == [])
    ensures NewestOnly(r')
  {
    if r'.observations != r.observations {
      forall i | 0 <= i < |r'.observations| ensures r'.observations[i].version == |r'.proofs| {
        if i < |r.observations| { assert r'.observations[i] == r.observations[i]; }
      }
    }
  }

  lemma {:induction false} NewestOnlyRun(w: World, limits: Limits, s: Sys, steps: seq<Step>)
    requires SysInv(w, s) && NewestOnly(s.rows) && NoLateVersion(w, limits, s, steps)
    ensures SysInv(w, Run(w, limits, s, steps)) && NewestOnly(Run(w, limits, s, steps).rows)
    decreases |steps|
  {
    if steps != [] {
      var s' := Next(w, limits, s, steps[0]);
      NextKeeps(w, limits, s, steps[0]);
      StepObservesNewest(w, limits, s, steps[0]);
      NewestOnlyStep(s.rows, s'.rows);
      NewestOnlyRun(w, limits, s', steps[1..]);
    }
  }

  /** In every run that appends no version after the first observation, the status is answered at the end. */
  lemma AnsweredWithoutLateVersion(
      w: World, limits: Limits, ref: string, digest: bytes, clock: Time, steps: seq<Step>)
    requires NoLateVersion(w, limits, Start0(ref, digest, clock), steps)
    ensures Project(w, Services(true, true), Run(w, limits, Start0(ref, digest, clock), steps).rows).Some?
  {
    FreshInv(w, ref, digest, clock);
    NewestOnlyRun(w, limits, Start0(ref, digest, clock), steps);
    NewestAnswers(w, Run(w, limits, Start0(ref, digest, clock), steps).rows);
  }

  // ---------------------------------------------------------------- runs made of handlers running alone

  lemma {:induction false} RunConcat(w: World, limits: Limits, s: Sys, a: seq<Step>, b: seq<Step>)
    ensures Run(w, limits, s, a + b) == Run(w, limits, Run(w, limits, s, a), b)
    decreases |a|
  {
    if a == [] {
      assert a + b == b;
    } else {
      assert (a + b)[1..] == a[1..] + b;
      RunConcat(w, limits, Next(w, limits, s, a[0]), a[1..], b);
    }
  }

  lemma RunOne(w: World, limits: Limits, s: Sys, step: Step)
    ensures Run(w, limits, s, [step]) == Next(w, limits, s, step)
  {
    var rest := [step][1..];
    assert |rest| == 0;
    assert Run(w, limits, Next(w, limits, s, step), rest) == Next(w, limits, s, step);
  }

  /** A thread advances alone. */
  lemma {:induction false} AdvancesAlone(w: World, limits: Limits, s: Sys, id: nat, o: Outside, n: nat)
    returns (steps: seq<Step>)
    requires id in s.threads
    ensures var (r', t') := Solo(w, limits, s.rows, s.clock, s.threads[id], o, n);
            Run(w, limits, s, steps) == Sys(r', s.clock, s.threads[id := t'])
    decreases n
  {
    if n == 0 {
      steps := [];
      assert s.threads == s.threads[id := s.threads[id]];
    } else {
      var step := Advance(id, Answer(s.threads[id], o));
      var s1 := Next(w, limits, s, step);
      var rest := AdvancesAlone(w, limits, s1, id, o, n - 1);
      steps := [step] + rest;
      RunConcat(w, limits, s, [step], rest);
      RunOne(w, limits, s, step);
      assert s1.threads[id := Run(w, limits, s1, rest).threads[id]]
          == s.threads[id := Run(w, limits, s1, rest).threads[id]];
    }
  }

  /** A handler starts and then advances alone. */
  lemma HandlerAlone(w: World, limits: Limits, s: Sys, id: nat, kind: HandlerKind, o: Outside, n: nat)
    returns (steps: seq<Step>)
    requires id !in s.threads && s.rows.fulfillment != AwaitingPayment
    ensures var (r', t') := Solo(w, limits, s.rows, s.clock, FirstOf(kind), o, n);
            Run(w, limits, s, steps) == Sys(r', s.clock, s.threads[id := t'])
  {
    var s1 := Next(w, limits, s, Start(id, kind));
    var rest := AdvancesAlone(w, limits, s1, id, o, n);
    steps := [Start(id, kind)] + rest;
    RunConcat(w, limits, s, [Start(id, kind)], rest);
    RunOne(w, limits, s, Start(id, kind));
    assert s1.threads[id := Run(w, limits, s1, rest).threads[id]]
        == s.threads[id := Run(w, limits, s1, rest).threads[id]];
  }

  // ---------------------------------------------------------------- a run to a verified order

  lemma {:induction false} StampAloneTouches(
      w: World, limits: Limits, r: Rows, clock: Time, t: Thread, o: Outside, n: nat)
    requires t.InStamp? || t.Ended?
    ensures Untouched(r, Solo(w, limits, r, clock, t, o, n).0)
    decreases n
  {
    if n > 0 {
      if t.Ended? {
        SoloEnded(w, limits, r, clock, t.end, o, n);
      } else {
        StampTouches(w, r, clock, t.stamp, o.calendar);
        var (r1, t1) := StampAct(w, r, clock, t.stamp, o.calendar);
        SoloStep(w, limits, r, clock, t, o, n, r1, t1);
        StampAloneTouches(w, limits, r1, clock, t1, o, n - 1);
      }
    }
  }

  /** Pending with one proof, and nothing verified, observed, bundled or announced yet. */
  predicate JustStamped(ref: string, digest: bytes, clock: Time, data: bytes, r: Rows) {
    && r.ref == ref && r.digest == digest && r.payment == Paid && r.fulfillment == CalendarPending
    && |r.proofs| == 1 && r.proofs[0].data == data
    && r.verifications == map[] && r.observations == [] && r.bundles == map[]
    && r.box == O.Box(map[], 0) && r.emails == []
  }

  predicate GoodData(w: World, digest: bytes, data: bytes) { w.valid(digest, data) && 1 <= |data| <= MAX_PROOF_BYTES }

  /** Payment, then a stamp handler alone. */
  lemma ReachPending(w: World, limits: Limits, ref: string, digest: bytes, clock: Time, data: bytes)
    returns (steps: seq<Step>)
    requires GoodData(w, digest, data)
    ensures var s := Run(w, limits, Start0(ref, digest, clock), steps);
            && SysInv(w, s) && s.clock == clock && s.threads.Keys == {0}
            && JustStamped(ref, digest, clock, data, s.rows)
  {
    var s0 := Start0(ref, digest, clock);
    var paid := Next(w, limits, s0, MoneyMoves(Paid));
    FreshInv(w, ref, digest, clock);
    NextKeeps(w, limits, s0, MoneyMoves(Paid));
    var o := Outside(CalendarProof(data), NoReply, NoReply);
    var rest := HandlerAlone(w, limits, paid, 0, Stamp, o, 7);
    StampRecovers(w, limits, paid.rows, clock, o, 7);
    StampAloneTouches(w, limits, paid.rows, clock, InStamp(StampLoad), o, 7);
    steps := [MoneyMoves(Paid)] + rest;
    RunConcat(w, limits, s0, [MoneyMoves(Paid)], rest);
    RunOne(w, limits, s0, MoneyMoves(Paid));
    RunKeeps(w, limits, s0, steps);
  }

  /** Verified with one proof and its one observation, and nothing bundled or announced yet. */
  predicate JustVerified(r0: Rows, r: Rows, row: Observation) {
    && r.fulfillment == BitcoinVerified && r.observations == [row] && row.version == 1
    && r == r0.(fulfillment := BitcoinVerified, verifications := r.verifications, observations := [row],
                events := r.events)
    && 1 in r.verifications
  }

  /** The first upgrade of a stamped order, alone, with nothing new from the calendars. */
  lemma FirstUpgrade(w: World, limits: Limits, r: Rows, clock: Time, data: bytes, o: Outside)
    requires Inv(w, r) && ClockInv(r, clock) && JustStamped(r.ref, r.digest, clock, data, r)
    requires o.calendar == CalendarProof(data) && o.bitcoin.BitcoinConfirmed? && o.bitcoin.confirmations >= 1
    ensures var (r', t') := Solo(w, limits, r, clock, InUpgrade(UpgradeLoad), o, 8);
            t' == Ended(Done) && JustVerified(r, r', ObservationOf(w, 1, ResultNow(clock, o)))
  {
    UpgradeRecovers(w, limits, r, clock, o, 8);
    var row := ObservationOf(w, 1, ResultNow(clock, o));
    assert r.observations + [row] == [row];
    assert r.proofs[0].data == data && w.valid(r.digest, data);
  }

  // ---------------------------------------------------------------- the hidden status is reachable

  /** A second upgrade that got other bytes stands before its append. */
  lemma ReachLateAppend(w: World, limits: Limits, s: Sys, data: bytes, late: bytes) returns (steps: seq<Step>)
    requires SysInv(w, s) && JustStamped(s.rows.ref, s.rows.digest, s.clock, data, s.rows) && 1 !in s.threads
    requires GoodData(w, s.rows.digest, late) && late != data
    ensures var s' := Run(w, limits, s, steps);
            var q := SealedProof(w, s.rows, 2, late, s.rows.proofs[0].calendarAt);
            s' == s.(threads := s.threads[1 := InUpgrade(UpgradeAppend(q))])
  {
    var o := Outside(CalendarProof(late), NoReply, NoReply);
    steps := HandlerAlone(w, limits, s, 1, Upgrade, o, 3);
    UpgradeReadsTo(w, s.rows);
    var p := Latest(w, s.rows).value.value;
    var read := InUpgrade(UpgradeRead(Load(s.rows)));
    SoloStep(w, limits, s.rows, s.clock, InUpgrade(UpgradeLoad), o, 3, s.rows, read);
    SoloStep(w, limits, s.rows, s.clock, read, o, 2, s.rows, InUpgrade(UpgradeSubmit(p)));
    var q := SealedProof(w, s.rows, 2, late, p.calendarAt);
    SoloStep(w, limits, s.rows, s.clock, InUpgrade(UpgradeSubmit(p)), o, 1, s.rows, InUpgrade(UpgradeAppend(q)));
    assert s.rows.calendarAt == Some(s.rows.proofs[0].calendarAt);
  }

  /** The late append hides the status of the order that was verified meanwhile. */
  lemma LateAppendHides(w: World, limits: Limits, s: Sys, r0: Rows, row: Observation, q: StoredProof)
    requires SysInv(w, s) && JustVerified(r0, s.rows, row) && |s.rows.proofs| == 1
    requires 1 in s.threads && s.threads[1] == InUpgrade(UpgradeAppend(q))
    requires GoodData(w, s.rows.digest, q.data)
    requires q == SealedProof(w, s.rows, 2, q.data, s.rows.proofs[0].calendarAt)
    ensures var r := Run(w, limits, s, [Advance(1, NoReply)]).rows;
            r.fulfillment == BitcoinVerified && Project(w, Services(true, true), r) == None
  {
    RunOne(w, limits, s, Advance(1, NoReply));
    LatestIsLast(s.rows.proofs);
    assert s.rows.calendarAt == Some(s.rows.proofs[0].calendarAt);
    assert Append(w, s.rows, q) == Ok(WithProof(s.rows, q, s.rows.calendarAt));
    LateUpgradeHidesStatus(w, s.rows, q);
  }

  /**
   A run from a fresh order to a verified one whose status is not answered: two upgrades overlap, and the one that got
   other bytes from the calendars appends them after the other has finished.
   */
  lemma HiddenStatusReachable(
      w: World, limits: Limits, ref: string, digest: bytes, clock: Time, data: bytes, late: bytes, bitcoin: Reply)
    returns (steps: seq<Step>)
    requires GoodData(w, digest, data) && GoodData(w, digest, late) && late != data
    requires bitcoin.BitcoinConfirmed? && bitcoin.confirmations >= 1
    ensures var r := Run(w, limits, Start0(ref, digest, clock), steps).rows;
            r.fulfillment == BitcoinVerified && Project(w, Services(true, true), r) == None
  {
    var s0 := Start0(ref, digest, clock);
    var a := ReachPending(w, limits, ref, digest, clock, data);
    var s1 := Run(w, limits, s0, a);
    var b := ReachLateAppend(w, limits, s1, data, late);
    var s2 := Run(w, limits, s1, b);
    RunKeeps(w, limits, s1, b);
    var o := Outside(CalendarProof(data), bitcoin, NoReply);
    var c := HandlerAlone(w, limits, s2, 2, Upgrade, o, 8);
    var s3 := Run(w, limits, s2, c);
    RunKeeps(w, limits, s2, c);
    FirstUpgrade(w, limits, s2.rows, clock, data, o);
    var q := SealedProof(w, s1.rows, 2, late, s1.rows.proofs[0].calendarAt);
    LateAppendHides(w, limits, s3, s2.rows, ObservationOf(w, 1, ResultNow(clock, o)), q);
    RunConcat(w, limits, s0, a, b);
    RunConcat(w, limits, s0, a + b, c);
    RunConcat(w, limits, s0, a + b + c, [Advance(1, NoReply)]);
    steps := a + b + c + [Advance(1, NoReply)];
  }

  // ---------------------------------------------------------------- a sent notice is reachable

  /** The dispatcher claims a notice that was never claimed. */
  lemma ClaimsFirst(r: Rows, limits: Limits, clock: Time, worker: string, lease: Time, n: int, i: nat, id: string)
    requires var key := KeyOf(r, O.Initial, 1);
             r.box == O.Insert(O.Box(map[], 0), key, n, i, clock, limits.horizon, limits.maxAttempts)
    requires O.ValidClaimRequest(worker, lease) && limits.horizon > 0 && limits.maxAttempts >= 1
    ensures var key := KeyOf(r, O.Initial, 1);
            var (box, claim) := O.ClaimNext(r.box, [], Some(key), worker, clock, lease);
            && claim.Some? && claim.value.key == key && key in box.notices
            && box.notices[key].row.confirmations == n && box.notices[key].row.observation == i
            && O.LeaseActive(box, claim.value, clock) && !O.ProviderIdUsed(box, id)
  {
  }

  /** From a verified order, a delivery handler alone stores the bundle and the initial notice. */
  lemma ReachNotice(w: World, limits: Limits, s: Sys, r0: Rows, row: Observation, zip: bytes) returns (steps: seq<Step>)
    requires SysInv(w, s) && JustVerified(r0, s.rows, row) && |s.rows.proofs| == 1 && 2 !in s.threads
    requires s.rows.bundles == map[] && s.rows.box == O.Box(map[], 0) && 1 <= row.confirmations <= MAX_COUNT
    requires 1 <= |zip| <= MAX_BUNDLE_BYTES && w.bundleSafe(zip)
    ensures var s' := Run(w, limits, s, steps);
            var key := KeyOf(s.rows, O.Initial, 1);
            && SysInv(w, s') && s'.clock == s.clock
            && s'.rows == s.rows.(bundles := s'.rows.bundles, box := s'.rows.box) && 1 in s'.rows.bundles
            && s'.rows.box == O.Insert(s.rows.box, key, row.confirmations, 0, s.clock, limits.horizon,
                                       limits.maxAttempts)
  {
    var o := Outside(NoReply, NoReply, Zip(zip));
    steps := HandlerAlone(w, limits, s, 2, Delivery, o, 7);
    RunKeeps(w, limits, s, steps);
    OneObservation(row);
    DeliverRecovers(w, limits, s.rows, s.clock, o, 7);
  }

  /** Then its notice is claimed, and is being sent. */
  lemma ReachSending(w: World, limits: Limits, s: Sys, r: Rows, row: Observation, worker: string, lease: Time,
                     id: string)
    returns (step: Step, d: D.Sending)
    requires SysInv(w, s) && |r.proofs| == 1 && r.observations == [row] && row.version == 1 && 1 in r.verifications
    requires r.fulfillment == BitcoinVerified && r.box == O.Box(map[], 0)
    requires s.rows == r.(bundles := s.rows.bundles, box := s.rows.box) && 1 in s.rows.bundles
    requires s.rows.box == O.Insert(r.box, KeyOf(r, O.Initial, 1), row.confirmations, 0, s.clock, limits.horizon,
                                    limits.maxAttempts)
    requires O.ValidClaimRequest(worker, lease) && limits.horizon > 0 && limits.maxAttempts >= 1 && 1 <= |id| <= 128
    ensures D.Unsent(w, d, Next(w, limits, s, step).rows) && d.id == id && d.now == s.clock
  {
    var key := KeyOf(r, O.Initial, 1);
    var claim := O.DoClaim([], Some(key), worker, s.clock, lease);
    var claimed := O.ClaimNext(s.rows.box, [], Some(key), worker, s.clock, lease);
    ClaimsFirst(s.rows, limits, s.clock, worker, lease, row.confirmations, 0, id);
    step := Dispatcher(claim);
    NextKeeps(w, limits, s, step);
    var r2 := s.rows.(box := claimed.0);
    assert Next(w, limits, s, step).rows == r2;
    d := D.Sending(claimed.1.value, id, s.clock);
    SendingIsReady(w, r, s.rows, r2, row, key);
  }

  lemma OneObservation(row: Observation)
    ensures LatestObservation([row], row.version) == Some(0)
  {
    var none: seq<Observation> := [];
    assert none + [row] == [row];
    NewestIsLast(none, row);
  }

  lemma SendingIsReady(w: World, r: Rows, r1: Rows, r2: Rows, row: Observation, key: O.NoticeKey)
    requires Inv(w, r2) && |r.proofs| == 1 && r.observations == [row] && row.version == 1 && 1 in r.verifications
    requires r1 == r.(bundles := r1.bundles, box := r1.box) && 1 in r1.bundles
    requires r2 == r1.(box := r2.box) && key == KeyOf(r, O.Initial, 1) && key in r2.box.notices
    requires r2.box.notices[key].row.confirmations == row.confirmations && r2.box.notices[key].row.observation == 0
    ensures D.Ready(w, r2, key)
  {
    LatestIsLast(r2.proofs);
    OneObservation(row);
    assert Agrees(r2.verifications, r2.observations[0]);
    assert NoticeBound(r2.ref, key, r2.box.notices[key].row, r2.observations, r2.emails);
  }

  /** A run from a fresh order to one whose initial notice is being sent, so delivery has something to start from. */
  lemma SendingReachable(
      w: World, limits: Limits, ref: string, digest: bytes, clock: Time, data: bytes, bitcoin: Reply, zip: bytes,
      worker: string, lease: Time, id: string)
    returns (steps: seq<Step>, d: D.Sending)
    requires GoodData(w, digest, data) && bitcoin.BitcoinConfirmed? && 1 <= bitcoin.confirmations <= MAX_COUNT
    requires 1 <= |zip| <= MAX_BUNDLE_BYTES && w.bundleSafe(zip) && 1 <= |id| <= 128
    requires O.ValidClaimRequest(worker, lease) && limits.horizon > 0 && limits.maxAttempts >= 1
    ensures D.Unsent(w, d, Run(w, limits, Start0(ref, digest, clock), steps).rows) && d.id == id
  {
    var s0 := Start0(ref, digest, clock);
    var a := ReachPending(w, limits, ref, digest, clock, data);
    var s1 := Run(w, limits, s0, a);
    var o := Outside(CalendarProof(data), bitcoin, NoReply);
    var b := HandlerAlone(w, limits, s1, 1, Upgrade, o, 8);
    var s2 := Run(w, limits, s1, b);
    RunKeeps(w, limits, s1, b);
    FirstUpgrade(w, limits, s1.rows, clock, data, o);
    var row := ObservationOf(w, 1, ResultNow(clock, o));
    var c := ReachNotice(w, limits, s2, s1.rows, row, zip);
    var s3 := Run(w, limits, s2, c);
    var claim, sending := ReachSending(w, limits, s3, s2.rows, row, worker, lease, id);
    RunOne(w, limits, s3, claim);
    RunConcat(w, limits, s0, a, b);
    RunConcat(w, limits, s0, a + b, c);
    RunConcat(w, limits, s0, a + b + c, [claim]);
    steps, d := a + b + c + [claim], sending;
  }
}
