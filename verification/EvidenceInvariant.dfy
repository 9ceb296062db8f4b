/** What holds of one order's evidence after every transaction, and how transactions may change it. */
module EvidenceInvariant {
  import opened Prelude
  import opened Orders
  import opened Evidence
  import O = Outbox
  import OP = OutboxProperties

  // ---------------------------------------------------------------- the invariant, table by table

  /** Versions are exactly 1..n, and every one carries the order's digest and calendar time. */
  ghost predicate ProofsInv(w: World, digest: bytes, calendarAt: Option<Time>, proofs: seq<ProofRow>) {
    && (|proofs| > 0 <==> calendarAt.Some?)
    && (forall i :: 0 <= i < |proofs| ==>
          && proofs[i].version == i + 1 && proofs[i].digest == digest && Some(proofs[i].calendarAt) == calendarAt
          && proofs[i].sha == w.sha(proofs[i].data) && w.valid(digest, proofs[i].data))
  }

  /** A verification belongs to a stored version and was made after the calendars answered. */
  ghost predicate VerificationsInv(calendarAt: Option<Time>, count: nat, verifications: map<nat, VerificationRow>) {
    forall v :: v in verifications ==>
      1 <= v <= count && calendarAt.Some? && calendarAt.value <= verifications[v].verifiedAt
  }

  /** An observation agrees with its version's verification on verifier, height, hash and policy. */
  ghost predicate ObservationsInv(verifications: map<nat, VerificationRow>, observations: seq<Observation>) {
    forall i {:trigger Agrees(verifications, observations[i])} :: 0 <= i < |observations|
           ==> Agrees(verifications, observations[i])
  }

  predicate Agrees(verifications: map<nat, VerificationRow>, o: Observation) {
    && o.version in verifications && o.block == verifications[o.version].block
    && o.confirmations >= 1 && o.key.version == o.version
  }

  ghost predicate BundlesInv(w: World, count: nat, bundles: map<nat, Bundle>) {
    forall v :: v in bundles ==>
      1 <= v <= count && bundles[v].sha == w.sha(bundles[v].data) && 1 <= |bundles[v].data| <= MAX_BUNDLE_BYTES
  }

  /** The state each kind of event key stands for. */
  predicate KeyFits(k: EventKey, target: Fulfillment) {
    match k
    case StampStart | StampResponse | ReplayStart(_) => target == Stamping
    case StampPersisted | StampReplay(_) => target == CalendarPending
    case BitcoinVerifiedKey(_) => target == BitcoinVerified
    case ReverifiedKey(_, _) => VerifiedStage(target)
    case WorkerTerminal(_) => target == InManualReview
    case ResendDelivered(_) => target == Delivered
  }

  /** A recorded event names the state its key stands for, and the order has reached it. */
  ghost predicate EventsInv(events: map<EventKey, Fulfillment>, f: Fulfillment) {
    forall k {:trigger EventReached(k, events[k], f)} :: k in events ==> EventReached(k, events[k], f)
  }

  ghost predicate EventReached(k: EventKey, target: Fulfillment, f: Fulfillment) {
    Stage(target) <= Stage(f) && KeyFits(k, target)
  }

  ghost predicate HasDelivery(emails: seq<Email>, id: Option<string>) {
    exists e :: e in emails && e.kind == EmailDelivered && Some(e.providerId) == id
  }

  /** A notice is bound to an observation of its version; a delivered one to a delivery event. */
  ghost predicate NoticeBound(ref: string, key: O.NoticeKey, row: O.Row, observations: seq<Observation>,
                              emails: seq<Email>) {
    && key.order == ref
    && row.observation < |observations|
    && observations[row.observation].version == key.version
    && observations[row.observation].confirmations == row.confirmations >= O.Threshold(key.kind)
    && (row.state == O.Delivered ==> HasDelivery(emails, row.providerId))
  }

  ghost predicate NoticesInv(ref: string, box: O.Box, observations: seq<Observation>, emails: seq<Email>) {
    && O.Inv(box)
    && (forall k {:trigger NoticeBound(ref, k, box.notices[k].row, observations, emails)} ::
          k in box.notices ==> NoticeBound(ref, k, box.notices[k].row, observations, emails))
  }

  /** Some version is verified and observed. */
  ghost predicate Confirmed(verifications: map<nat, VerificationRow>, observations: seq<Observation>, v: nat) {
    v in verifications && exists i :: 0 <= i < |observations| && observations[i].version == v
  }

  /** That version also has a bundle, and its initial notice was delivered. */
  ghost predicate HandedOver(r: Rows, v: nat) {
    && Confirmed(r.verifications, r.observations, v)
    && v in r.bundles
    && KeyOf(r, O.Initial, v) in r.box.notices
    && r.box.notices[KeyOf(r, O.Initial, v)].row.state == O.Delivered
  }

  /** Evidence follows state. */
  ghost predicate StageInv(r: Rows) {
    && (r.fulfillment in {CalendarPending, BitcoinVerified, Delivered} ==> |r.proofs| > 0)
    && (VerifiedStage(r.fulfillment) ==> exists v :: Confirmed(r.verifications, r.observations, v))
    && (r.fulfillment == Delivered ==> exists v :: HandedOver(r, v))
  }

  ghost predicate PaymentInv(payment: Payment, f: Fulfillment) {
    && (f != AwaitingPayment ==> Charged(payment))
    && (payment == Paid ==> f != AwaitingPayment)
  }

  ghost predicate Inv(w: World, r: Rows) {
    && ProofsInv(w, r.digest, r.calendarAt, r.proofs)
    && VerificationsInv(r.calendarAt, |r.proofs|, r.verifications)
    && ObservationsInv(r.verifications, r.observations)
    && BundlesInv(w, |r.proofs|, r.bundles)
    && EventsInv(r.events, r.fulfillment)
    && NoticesInv(r.ref, r.box, r.observations, r.emails)
    && StageInv(r)
    && PaymentInv(r.payment, r.fulfillment)
  }

  // ---------------------------------------------------------------- how the tables may change

  ghost predicate Submap<K, V>(m: map<K, V>, m': map<K, V>) {
    m.Keys <= m'.Keys && forall k :: k in m ==> m'[k] == m[k]
  }

  /** Evidence is only added, what is settled stays, and the order never goes back. */
  ghost predicate Grown(r: Rows, r': Rows) {
    && r'.ref == r.ref && r'.digest == r.digest
    && (r.calendarAt.Some? ==> r'.calendarAt == r.calendarAt)
    && Stage(r.fulfillment) <= Stage(r'.fulfillment)
    && (Charged(r.payment) ==> Charged(r'.payment))
    && r.proofs <= r'.proofs
    && r.observations <= r'.observations
    && r.emails <= r'.emails
    && Submap(r.verifications, r'.verifications)
    && Submap(r.bundles, r'.bundles)
    && Submap(r.events, r'.events)
    && OP.Extends(r.box, r'.box)
  }

  /** One transaction moves the order at most one step along each of its two transition relations. */
  ghost predicate OneMove(r: Rows, r': Rows) {
    && (r'.fulfillment == r.fulfillment || r'.fulfillment in FulfillmentTargets(r.fulfillment))
    && (r'.payment == r.payment || r'.payment in PaymentTargets(r.payment))
  }

  ghost predicate Extends(r: Rows, r': Rows) { Grown(r, r') && OneMove(r, r') }

  lemma ExtendsRefl(r: Rows)
    ensures Extends(r, r)
  {
    OP.ExtendsRefl(r.box);
  }

  lemma SubmapTrans<K, V>(a: map<K, V>, b: map<K, V>, c: map<K, V>)
    requires Submap(a, b) && Submap(b, c)
    ensures Submap(a, c)
  {
  }

  lemma GrownTrans(a: Rows, b: Rows, c: Rows)
    requires Grown(a, b) && Grown(b, c) && O.Inv(a.box) && O.Inv(b.box)
    ensures Grown(a, c)
  {
    SubmapTrans(a.verifications, b.verifications, c.verifications);
    SubmapTrans(a.bundles, b.bundles, c.bundles);
    SubmapTrans(a.events, b.events, c.events);
    OP.ExtendsTrans(a.box, b.box, c.box);
  }

  // ---------------------------------------------------------------- latest rows

  /** The newest proof is the last row. */
  lemma {:induction false} LatestIsLast(proofs: seq<ProofRow>)
    requires forall i :: 0 <= i < |proofs| ==> proofs[i].version == i + 1
    ensures LatestProof(proofs) == if proofs == [] then None else Some(proofs[|proofs| - 1])
  {
    if proofs != [] {
      var front := proofs[..|proofs| - 1];
      LatestIsLast(front);
      assert proofs[|proofs| - 1].version == |proofs|;
      assert front != [] ==> front[|front| - 1].version == |front|;
    }
  }

  /** The answer is an observation of the version that no other observation of it postdates. */
  lemma {:induction false} LatestObservationIsNewest(observations: seq<Observation>, version: nat)
    ensures var r := LatestObservation(observations, version);
            r.Some? ==> forall i :: 0 <= i < |observations| && observations[i].version == version ==>
              observations[i].observedAt <= observations[r.value].observedAt
              && (i > r.value ==> observations[i].observedAt < observations[r.value].observedAt)
  {
    if observations != [] {
      var n := |observations| - 1;
      LatestObservationIsNewest(observations[..n], version);
      var earlier := LatestObservation(observations[..n], version);
      forall i | 0 <= i < n
        ensures observations[..n][i] == observations[i]
      {}
    }
  }

  lemma ProofIsFound(proofs: seq<ProofRow>, version: nat)
    requires forall i :: 0 <= i < |proofs| ==> proofs[i].version == i + 1
    ensures FindProof(proofs, version) == if 1 <= version <= |proofs| then Some(proofs[version - 1]) else None
  {
    var r := FindProof(proofs, version);
    if 1 <= version <= |proofs| { assert proofs[version - 1] in proofs; }
  }

  // ---------------------------------------------------------------- stages survive growing evidence

  lemma ConfirmedGrows(r: Rows, r': Rows, v: nat)
    requires Confirmed(r.verifications, r.observations, v)
    requires Submap(r.verifications, r'.verifications) && r.observations <= r'.observations
    ensures Confirmed(r'.verifications, r'.observations, v)
  {
    var i :| 0 <= i < |r.observations| && r.observations[i].version == v;
    assert r'.observations[i].version == v;
  }

  /** As long as the order does not enter a new stage, the evidence it rests on stays. */
  lemma StageSurvives(r: Rows, r': Rows)
    requires StageInv(r) && Extends(r, r') && r'.fulfillment == r.fulfillment
    ensures StageInv(r')
  {
    if VerifiedStage(r.fulfillment) {
      var v :| Confirmed(r.verifications, r.observations, v);
      ConfirmedGrows(r, r', v);
    }
    if r.fulfillment == Delivered {
      var v :| HandedOver(r, v);
      HandedOverGrows(r, r', v);
    }
  }

  lemma HandedOverGrows(r: Rows, r': Rows, v: nat)
    requires HandedOver(r, v) && Extends(r, r')
    ensures HandedOver(r', v)
  {
    ConfirmedGrows(r, r', v);
    var key := KeyOf(r, O.Initial, v);
    assert OP.Grows(r.box.notices[key], r'.box.notices[key], r.box.nextToken);
  }

  /** Notices stay bound while observations and emails are added. */
  lemma NoticesSurvive(ref: string, box: O.Box, obs: seq<Observation>, obs': seq<Observation>, em: seq<Email>,
                       em': seq<Email>)
    requires NoticesInv(ref, box, obs, em) && obs <= obs' && em <= em'
    ensures NoticesInv(ref, box, obs', em')
  {
    forall k | k in box.notices ensures NoticeBound(ref, k, box.notices[k].row, obs', em') {
      assert NoticeBound(ref, k, box.notices[k].row, obs, em);
      if box.notices[k].row.state == O.Delivered {
        var e :| e in em && e.kind == EmailDelivered && Some(e.providerId) == box.notices[k].row.providerId;
        assert e in em';
      }
    }
  }

  // ---------------------------------------------------------------- one lemma per transaction

  lemma AppendKeeps(w: World, r: Rows, p: StoredProof, r': Rows)
    requires Inv(w, r) && Append(w, r, p) == Ok(r')
    requires w.valid(r.digest, p.data) && p.sha == w.sha(p.data)
    ensures Inv(w, r') && Extends(r, r') && |r'.proofs| > 0
    ensures 1 <= p.version <= |r'.proofs| && r'.proofs[p.version - 1].data == p.data
    ensures r'.calendarAt == Some(p.calendarAt)
  {
    LatestIsLast(r.proofs);
    OP.ExtendsRefl(r.box);
    if r' == r { return; }
    assert r' == WithProof(r, p, Some(p.calendarAt));
    assert |r'.proofs| == |r.proofs| + 1;
    StageSurvives(r, r');
  }

  lemma PutVerifiedKeeps(w: World, r: Rows, version: nat, v: Verification, r': Rows)
    requires Inv(w, r) && PutVerified(r, version, v) == Ok(r')
    requires r.calendarAt.Some? ==> r.calendarAt.value <= v.verifiedAt
    ensures Inv(w, r') && Extends(r, r')
    ensures version in r'.verifications && Matches(r'.verifications[version], v)
  {
    ProofIsFound(r.proofs, version);
    OP.ExtendsRefl(r.box);
    if version in r.verifications { return; }
    var verifications := r.verifications[version := VerificationRow(v.block, v.blockTime, v.verifiedAt)];
    assert r' == r.(verifications := verifications);
    forall i | 0 <= i < |r.observations| ensures Agrees(verifications, r.observations[i]) {
      assert Agrees(r.verifications, r.observations[i]);
    }
    StageSurvives(r, r');
  }

  lemma RecordOnceKeeps(w: World, r: Rows, version: nat, key: ObservationKey, v: Verification, r': Rows, i: nat)
    requires Inv(w, r) && RecordOnce(r, version, key, v) == Ok(Recorded(r', i)) && key.version == version
    ensures Inv(w, r') && Extends(r, r')
    ensures i < |r'.observations|
    ensures r'.observations[i] == Observation(key, version, v.block, v.confirmations, v.verifiedAt)
    ensures Confirmed(r'.verifications, r'.observations, version)
  {
    OP.ExtendsRefl(r.box);
    if r' != r {
      var row := Observation(key, version, v.block, v.confirmations, v.verifiedAt);
      assert r' == r.(observations := r.observations + [row]);
      forall j | 0 <= j < |r'.observations| ensures Agrees(r.verifications, r'.observations[j]) {
        if j < |r.observations| { assert Agrees(r.verifications, r.observations[j]); }
      }
      NoticesSurvive(r.ref, r.box, r.observations, r'.observations, r.emails, r.emails);
      StageSurvives(r, r');
    }
    assert r'.observations[i].version == version;
  }

  lemma PutBundleKeeps(w: World, r: Rows, version: nat, data: bytes, r': Rows)
    requires Inv(w, r) && PutBundle(w, r, version, data) == Ok(r')
    ensures Inv(w, r') && Extends(r, r') && version in r'.bundles
  {
    ProofIsFound(r.proofs, version);
    OP.ExtendsRefl(r.box);
    if version in r.bundles { return; }
    assert r' == r.(bundles := r.bundles[version := Bundle(data, w.sha(data))]);
    StageSurvives(r, r');
  }

  /** The evidence a handler must hold before it asks for a stage. */
  ghost predicate MayEnter(r: Rows, target: Fulfillment) {
    && (target in {CalendarPending, BitcoinVerified} ==> |r.proofs| > 0)
    && (target == BitcoinVerified ==> exists v :: Confirmed(r.verifications, r.observations, v))
    && (target == Delivered ==> Stage(Delivered) <= Stage(r.fulfillment))
  }

  /** A keyed transition of an order whose work has begun, with a calendar time only of a stored proof. */
  lemma TransitionKeeps(w: World, r: Rows, target: Fulfillment, key: EventKey, supplied: Option<Time>, r': Rows)
    requires Inv(w, r) && TransitionOnce(r, target, key, supplied) == Ok(r')
    requires r.fulfillment != AwaitingPayment && target != AwaitingPayment && !key.ResendDelivered?
             && KeyFits(key, target)
    requires supplied.Some? ==> |r.proofs| > 0
    requires MayEnter(r, target)
    ensures Inv(w, r') && Extends(r, r') && Stage(target) <= Stage(r'.fulfillment)
    ensures r'.proofs == r.proofs && r'.verifications == r.verifications && r'.observations == r.observations
  {
    assert r'.calendarAt == r.calendarAt;
    if key in r.events {
      assert EventReached(key, r.events[key], r.fulfillment);
      assert r' == r;
      ExtendsRefl(r);
      return;
    }
    assert r' == r.(fulfillment := target, events := r.events[key := target]);
    EnterKeeps(w, r, target, key);
  }

  lemma EnterKeeps(w: World, r: Rows, target: Fulfillment, key: EventKey)
    requires Inv(w, r) && TransitionFulfillment(r.payment, r.fulfillment, target).Some? && key !in r.events
    requires r.fulfillment != AwaitingPayment && target != AwaitingPayment && KeyFits(key, target)
    requires MayEnter(r, target)
    ensures var r' := r.(fulfillment := target, events := r.events[key := target]); Inv(w, r') && Extends(r, r')
  {
    var r' := r.(fulfillment := target, events := r.events[key := target]);
    OP.ExtendsRefl(r.box);
    FulfillmentForward(r.payment, r.fulfillment, target);
    EventRecorded(r.events, r.fulfillment, key, target);
    EnterStage(r, r');
  }

  lemma EventRecorded(events: map<EventKey, Fulfillment>, f: Fulfillment, key: EventKey, target: Fulfillment)
    requires EventsInv(events, f) && Stage(f) <= Stage(target) && KeyFits(key, target) && key !in events
    ensures EventsInv(events[key := target], target) && Submap(events, events[key := target])
  {
    var events' := events[key := target];
    forall k | k in events' ensures EventReached(k, events'[k], target) {
      if k != key { assert EventReached(k, events[k], f); }
    }
  }

  lemma EventsSurvive(events: map<EventKey, Fulfillment>, f: Fulfillment, f': Fulfillment)
    requires EventsInv(events, f) && Stage(f) <= Stage(f')
    ensures EventsInv(events, f')
  {
    forall k | k in events ensures EventReached(k, events[k], f') { assert EventReached(k, events[k], f); }
  }

  lemma EnterStage(r: Rows, r': Rows)
    requires StageInv(r) && Extends(r, r') && MayEnter(r, r'.fulfillment)
    requires r'.proofs == r.proofs && r'.verifications == r.verifications && r'.observations == r.observations
    ensures StageInv(r')
  {
    if r'.fulfillment == r.fulfillment { StageSurvives(r, r'); }
  }

  lemma EnqueueKeeps(
      w: World, r: Rows, kind: O.Kind, version: nat, confirmations: int, now: Time, horizon: Time, max: nat, r': Rows)
    requires Inv(w, r) && EnqueueNotice(r, kind, version, confirmations, now, horizon, max) == Ok(r')
    ensures Inv(w, r') && Extends(r, r') && KeyOf(r, kind, version) in r'.box.notices
  {
    var key, current := KeyOf(r, kind, version), LatestObservation(r.observations, version);
    OP.ExtendsRefl(r.box);
    if key in r.box.notices { return; }
    OP.InsertKeeps(r.box, key, confirmations, current.value, now, horizon, max);
    assert r' == r.(box := O.Insert(r.box, key, confirmations, current.value, now, horizon, max));
    forall k | k in r'.box.notices ensures NoticeBound(r.ref, k, r'.box.notices[k].row, r.observations, r.emails) {
      if k != key { assert NoticeBound(r.ref, k, r.box.notices[k].row, r.observations, r.emails); }
    }
    StageSurvives(r, r');
  }

  // ---------------------------------------------------------------- the outbox, the webhook and the payment

  /** The box may change freely as long as no notice is inserted or newly delivered. */
  lemma BoxKeeps(w: World, r: Rows, box: O.Box)
    requires Inv(w, r) && O.Inv(box) && OP.Extends(r.box, box) && box.notices.Keys == r.box.notices.Keys
    requires forall k :: k in box.notices && box.notices[k].row.state == O.Delivered ==>
               r.box.notices[k].row.state == O.Delivered
    ensures Inv(w, r.(box := box)) && Extends(r, r.(box := box))
  {
    var r' := r.(box := box);
    forall k | k in box.notices ensures NoticeBound(r.ref, k, box.notices[k].row, r.observations, r.emails) {
      assert NoticeBound(r.ref, k, r.box.notices[k].row, r.observations, r.emails);
      assert OP.Grows(r.box.notices[k], box.notices[k], r.box.nextToken);
    }
    StageSurvives(r, r');
  }

  lemma {:induction false} ExpireAllDelivers(b: O.Box, keys: seq<O.NoticeKey>, now: Time)
    ensures var b' := O.ExpireAll(b, keys, now);
            && b'.notices.Keys == b.notices.Keys
            && forall k :: k in b.notices && b'.notices[k].row.state == O.Delivered ==>
                 b.notices[k].row.state == O.Delivered
    decreases |keys|
  {
    if keys != [] { ExpireAllDelivers(O.ExpireOne(b, keys[0], now), keys[1..], now); }
  }

  /** Steps of the dispatcher that neither insert nor accept. */
  predicate DispatcherStep(s: O.Step) { s.DoClaim? || s.DoRetry? || s.DoFail? }

  ghost predicate NothingDelivered(b: O.Box, b': O.Box) {
    && b'.notices.Keys == b.notices.Keys
    && forall k :: k in b'.notices && b'.notices[k].row.state == O.Delivered ==> b.notices[k].row.state == O.Delivered
  }

  lemma ClaimDeliversNothing(b: O.Box, keys: seq<O.NoticeKey>, pick: Option<O.NoticeKey>, v: string, now: Time, d: Time)
    ensures NothingDelivered(b, O.ClaimNext(b, keys, pick, v, now, d).0)
  {
    ExpireAllDelivers(b, keys, now);
  }

  lemma DispatcherDeliversNothing(b: O.Box, s: O.Step)
    requires DispatcherStep(s)
    ensures NothingDelivered(b, O.Next(b, s))
  {
    match s
    case DoClaim(keys, pick, v, now, d) => ClaimDeliversNothing(b, keys, pick, v, now, d);
    case _ =>
  }

  lemma DispatcherKeeps(w: World, r: Rows, s: O.Step)
    requires Inv(w, r) && DispatcherStep(s)
    ensures Inv(w, r.(box := O.Next(r.box, s))) && Extends(r, r.(box := O.Next(r.box, s)))
  {
    var box := O.Next(r.box, s);
    OP.NextKeeps(r.box, s);
    DispatcherDeliversNothing(r.box, s);
    BoxKeeps(w, r, box);
  }

  lemma EmailKeeps(w: World, r: Rows, e: Email)
    requires Inv(w, r)
    ensures Inv(w, r.(emails := r.emails + [e])) && Extends(r, r.(emails := r.emails + [e]))
  {
    var r' := r.(emails := r.emails + [e]);
    OP.ExtendsRefl(r.box);
    NoticesSurvive(r.ref, r.box, r.observations, r.observations, r.emails, r'.emails);
    StageSurvives(r, r');
  }

  lemma BounceKeeps(w: World, r: Rows, key: O.NoticeKey)
    requires Inv(w, r)
    ensures Inv(w, r.(box := O.Bounce(r.box, key))) && Extends(r, r.(box := O.Bounce(r.box, key)))
  {
    OP.WebhooksKeep(r.box, key, 0);
    BoxKeeps(w, r, O.Bounce(r.box, key));
  }

  lemma NoticesDeliver(ref: string, b: O.Box, key: O.NoticeKey, at: Time, obs: seq<Observation>, emails: seq<Email>)
    requires NoticesInv(ref, b, obs, emails) && key in b.notices
    requires HasDelivery(emails, b.notices[key].row.providerId)
    ensures NoticesInv(ref, O.Deliver(b, key, at), obs, emails) && OP.Extends(b, O.Deliver(b, key, at))
  {
    var box := O.Deliver(b, key, at);
    OP.WebhooksKeep(b, key, at);
    forall k | k in box.notices ensures NoticeBound(ref, k, box.notices[k].row, obs, emails) {
      assert NoticeBound(ref, k, b.notices[k].row, obs, emails);
    }
  }

  /** Marking a notice delivered, for a stored delivery event of its provider id. */
  lemma DeliverKeeps(w: World, r: Rows, key: O.NoticeKey, at: Time, box: O.Box)
    requires Inv(w, r) && key in r.box.notices && box == O.Deliver(r.box, key, at)
    requires r.box.notices[key].row.acceptedAt.Some? && r.box.notices[key].row.state in {O.Accepted, O.Failed}
    requires HasDelivery(r.emails, r.box.notices[key].row.providerId)
    ensures Inv(w, r.(box := box)) && Extends(r, r.(box := box))
    ensures key in box.notices && box.notices[key].row.state == O.Delivered
  {
    NoticesDeliver(r.ref, r.box, key, at, r.observations, r.emails);
    StageSurvives(r, r.(box := box));
  }

  lemma ApplyKeeps(w: World, r: Rows, key: O.NoticeKey, e: Email)
    requires Inv(w, r) && e in r.emails
    ensures Inv(w, ApplyDelivered(w, r, key, e).0) && Extends(r, ApplyDelivered(w, r, key, e).0)
  {
    ExtendsRefl(r);
    if !Applies(w, r, key, e) { return; }
    var box := O.Deliver(r.box, key, e.createdAt);
    assert HasDelivery(r.emails, Some(e.providerId));
    DeliverKeeps(w, r, key, e.createdAt, box);
    var marked := r.(box := box);
    if key.kind == O.Final || r.fulfillment == Delivered { assert ApplyDelivered(w, r, key, e).0 == marked; return; }
    HandOverComplete(w, r, marked, key);
    ReachDelivered(w, r, marked, key.version, ResendDelivered(e.svix));
    assert ApplyDelivered(w, r, key, e).0
        == marked.(fulfillment := Delivered, events := r.events[ResendDelivered(e.svix) := Delivered]);
  }

  /** The one order transition of a delivery. */
  lemma ReachDelivered(w: World, r: Rows, marked: Rows, v: nat, event: EventKey)
    requires Inv(w, marked) && Extends(r, marked) && marked == r.(box := marked.box)
    requires r.fulfillment == BitcoinVerified && event.ResendDelivered? && HandedOver(marked, v)
    ensures var r' := marked.(fulfillment := Delivered, events := r.events[event := Delivered]);
            Inv(w, r') && Extends(r, r')
  {
    assert event in r.events ==> EventReached(event, r.events[event], r.fulfillment);
    EventRecorded(r.events, r.fulfillment, event, Delivered);
    var r' := marked.(fulfillment := Delivered, events := r.events[event := Delivered]);
    assert HandedOver(r', v);
  }

  lemma HandOverComplete(w: World, r: Rows, marked: Rows, key: O.NoticeKey)
    requires Inv(w, r) && key in r.box.notices && key.kind == O.Initial && DeliveryEvidence(w, r, key)
    requires marked == r.(box := marked.box) && key in marked.box.notices
    requires marked.box.notices[key].row.state == O.Delivered
    ensures HandedOver(marked, key.version)
  {
    assert KeyOf(marked, O.Initial, key.version) == key;
    var i := r.box.notices[key].row.observation;
    assert r.observations[i].version == key.version;
  }

  lemma AcceptedBoxKeeps(w: World, r: Rows, c: O.Claim, id: string, status: int, now: Time, box: O.Box)
    requires Inv(w, r) && O.RecordAccepted(r.box, c, id, status, now) == Ok(box)
    ensures Inv(w, r.(box := box)) && Extends(r, r.(box := box))
  {
    var step := O.DoAccept(c, id, status, now);
    OP.NextKeeps(r.box, step);
    assert box == O.Next(r.box, step);
    assert NothingDelivered(r.box, box);
    BoxKeeps(w, r, box);
  }

  lemma AcceptKeeps(w: World, r: Rows, c: O.Claim, id: string, status: int, now: Time, r': Rows)
    requires Inv(w, r) && AcceptNotice(w, r, c, id, status, now) == Ok(r')
    ensures Inv(w, r') && Extends(r, r')
  {
    var box := O.RecordAccepted(r.box, c, id, status, now).value;
    AcceptedBoxKeeps(w, r, c, id, status, now, box);
    var e := EarliestDelivered(r.emails, id);
    if e.Some? { ApplyAfter(w, r, r.(box := box), c.key, e.value); }
  }

  /** A delivery applied right after a change that left the order alone. */
  lemma ApplyAfter(w: World, r: Rows, m: Rows, key: O.NoticeKey, e: Email)
    requires Inv(w, r) && Inv(w, m) && Grown(r, m) && m.payment == r.payment && m.fulfillment == r.fulfillment
    requires e in m.emails
    ensures Inv(w, ApplyDelivered(w, m, key, e).0) && Extends(r, ApplyDelivered(w, m, key, e).0)
  {
    ApplyKeeps(w, m, key, e);
    GrownTrans(r, m, ApplyDelivered(w, m, key, e).0);
  }

  lemma BounceAfter(w: World, r: Rows, m: Rows, key: O.NoticeKey)
    requires Inv(w, r) && Inv(w, m) && Grown(r, m) && m.payment == r.payment && m.fulfillment == r.fulfillment
    ensures Inv(w, m.(box := O.Bounce(m.box, key))) && Extends(r, m.(box := O.Bounce(m.box, key)))
  {
    BounceKeeps(w, m, key);
    GrownTrans(r, m, m.(box := O.Bounce(m.box, key)));
  }

  lemma WebhookKeeps(w: World, r: Rows, e: Email, r': Rows, result: WebhookResult)
    requires Inv(w, r) && Webhook(w, r, e) == Ok((r', result))
    ensures Inv(w, r') && Extends(r, r')
  {
    var key := ByProviderId(r, e.providerId);
    if FindEmail(r.emails, e.svix).Some? {
      if e.kind != EmailDelivered || key.None? { ExtendsRefl(r); } else { ApplyKeeps(w, r, key.value, e); }
    } else {
      var stored := r.(emails := r.emails + [e]);
      EmailKeeps(w, r, e);
      if key.None? || r.box.notices[key.value].row.acceptedAt.None? || e.kind == EmailOther { assert r' == stored; }
      else if e.kind == EmailBad { BounceAfter(w, r, stored, key.value); }
      else { ApplyAfter(w, r, stored, key.value, e); }
    }
  }

  /** Money moves along its own relation; the direct write to `queued` is a legal transition. */
  lemma PaymentKeeps(w: World, r: Rows, target: Payment)
    requires Inv(w, r)
    ensures Inv(w, PaymentChanges(r, target)) && Extends(r, PaymentChanges(r, target))
  {
    ExtendsRefl(r);
    var moved := TransitionPayment(r.payment, target);
    if moved.None? || target == r.payment { assert PaymentChanges(r, target) == r; return; }
    if target == Paid {
      assert r.fulfillment == AwaitingPayment;
      EventsSurvive(r.events, AwaitingPayment, Queued);
      assert PaymentChanges(r, target) == r.(payment := Paid, fulfillment := Queued);
    } else {
      assert PaymentChanges(r, target) == r.(payment := target);
      StageSurvives(r, r.(payment := target));
    }
  }
}
