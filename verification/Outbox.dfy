/**
 The notification outbox: leases fenced by fresh tokens.

 A notice is identified by its unique `message_key`, which is rendered from its kind, proof version and
 order reference.  Its attempt rows are kept with it in insertion order.  Lease tokens are fresh UUIDs,
 drawn here from a counter.  Every function is one committed transaction.
 */
module Outbox {
  import opened Prelude

  datatype Kind = Initial | Final

  datatype NoticeKey = NoticeKey(kind: Kind, version: nat, order: string)

  datatype State = Available | Retry | Leased | Accepted | Failed | DeadLetter | Delivered

  datatype Row = Row(
    confirmations: int, observation: nat, state: State, attemptCount: nat, maxAttempts: nat, availableAt: Time,
    leaseOwner: Option<string>, leaseUntil: Option<Time>, leaseToken: Option<nat>,
    providerId: Option<string>, acceptedAt: Option<Time>, deliveredAt: Option<Time>, expiresAt: Time)

  datatype Outcome = LeaseExpired | WasAccepted | WillRetry | DeadLettered | WasFailed

  datatype Attempt = Attempt(
    number: nat, worker: string, token: nat, startedAt: Time, finishedAt: Option<Time>, outcome: Option<Outcome>)

  datatype Notice = Notice(row: Row, attempts: seq<Attempt>)

  datatype Box = Box(notices: map<NoticeKey, Notice>, nextToken: nat)

  /** What a dispatcher holds after a claim. */
  datatype Claim = Claim(key: NoticeKey, attempt: nat, owner: string, token: nat)

  const SECOND: Time := 1_000_000
  const EXPIRE_LIMIT: nat := 100

  function Threshold(k: Kind): nat { if k == Initial then 1 else 6 }

  // ---------------------------------------------------------------- attempt rows

  predicate Open(a: Attempt) { a.finishedAt.None? }

  function Closed(a: Attempt, now: Time, outcome: Outcome): Attempt {
    a.(finishedAt := Some(now), outcome := Some(outcome))
  }

  /** The first attempt that is not finished. */
  function FirstOpen(attempts: seq<Attempt>): (r: Option<nat>)
    ensures r.Some? ==> r.value < |attempts| && Open(attempts[r.value])
    ensures r.None? ==> forall i :: 0 <= i < |attempts| ==> !Open(attempts[i])
  {
    if attempts == [] then None
    else if Open(attempts[0]) then Some(0)
    else
      match FirstOpen(attempts[1..])
      case Some(i) => Some(i + 1)
      case None =>
        assert forall i :: 0 < i < |attempts| ==> attempts[i] == attempts[1..][i - 1];
        None
  }

  /** The open attempt with this number and token. */
  function FindOpen(attempts: seq<Attempt>, number: nat, token: nat): (r: Option<nat>)
    ensures r.Some? ==> r.value < |attempts| && Open(attempts[r.value])
    ensures r.Some? ==> attempts[r.value].number == number && attempts[r.value].token == token
    ensures r.None? ==> forall i :: 0 <= i < |attempts| ==>
                !(Open(attempts[i]) && attempts[i].number == number && attempts[i].token == token)
  {
    if attempts == [] then None
    else if Open(attempts[0]) && attempts[0].number == number && attempts[0].token == token then Some(0)
    else
      match FindOpen(attempts[1..], number, token)
      case Some(i) => Some(i + 1)
      case None =>
        assert forall i :: 0 < i < |attempts| ==> attempts[i] == attempts[1..][i - 1];
        None
  }

  function CloseOpen(attempts: seq<Attempt>, now: Time, outcome: Outcome): seq<Attempt> {
    match FirstOpen(attempts)
    case Some(i) => attempts[i := Closed(attempts[i], now, outcome)]
    case None => attempts
  }

  // ---------------------------------------------------------------- transactions on one notice

  predicate LeaseOver(r: Row, now: Time) { r.state == Leased && r.leaseUntil.Some? && r.leaseUntil.value < now }

  predicate Exhausted(r: Row, now: Time) { r.expiresAt <= now || r.attemptCount >= r.maxAttempts }

  predicate Claimable(r: Row, now: Time) {
    && (r.state in {Available, Retry} || LeaseOver(r, now))
    && r.availableAt <= now
    && r.providerId.None?
    && !Exhausted(r, now)
  }

  /** The rows `_expire_unclaimable` selects. */
  predicate Expirable(r: Row, now: Time) {
    && (r.state in {Available, Retry} || LeaseOver(r, now))
    && Exhausted(r, now)
    && r.providerId.None?
  }

  function Unleased(r: Row, state: State): Row {
    r.(state := state, leaseOwner := None, leaseUntil := None, leaseToken := None)
  }

  function ExpiredNotice(n: Notice, now: Time): Notice {
    Notice(Unleased(n.row, DeadLetter),
           if n.row.state == Leased then CloseOpen(n.attempts, now, DeadLettered) else n.attempts)
  }

  /** The writes of a claim: a fresh token, the next attempt number, and the previous attempt closed. */
  function ClaimedNotice(n: Notice, w: string, now: Time, leaseFor: Time, token: nat): Notice {
    var number := n.row.attemptCount + 1;
    Notice(n.row.(state := Leased, attemptCount := number, leaseOwner := Some(w), leaseUntil := Some(now + leaseFor),
                  leaseToken := Some(token)),
           CloseOpen(n.attempts, now, LeaseExpired) + [Attempt(number, w, token, now, None, None)])
  }

  function FinishedNotice(n: Notice, i: nat, now: Time, outcome: Outcome, row: Row): Notice
    requires i < |n.attempts|
  {
    Notice(row, n.attempts[i := Closed(n.attempts[i], now, outcome)])
  }

  function AcceptedRow(r: Row, id: string, now: Time): Row {
    Unleased(r, Accepted).(providerId := Some(id), acceptedAt := Some(now))
  }

  /** No time is left before the provider forgets the idempotency key, or no attempt is left. */
  predicate RetryExhausted(r: Row, retryAt: Time) { retryAt >= r.expiresAt || r.attemptCount >= r.maxAttempts }

  function RetriedRow(r: Row, retryAt: Time): Row {
    Unleased(r, if RetryExhausted(r, retryAt) then DeadLetter else Retry).(availableAt := retryAt)
  }

  /** `email.bounced`, `email.failed` and `email.complained`: a delivered notice stays delivered. */
  function BouncedRow(r: Row): Row { if r.state == Delivered then r else r.(state := Failed) }

  function DeliveredRow(r: Row, at: Time): Row { r.(state := Delivered, deliveredAt := Some(at)) }

  // ---------------------------------------------------------------- transactions on the box

  predicate ValidClaimRequest(w: string, leaseFor: Time) {
    1 <= |w| <= 128 && SECOND <= leaseFor <= 3600 * SECOND
  }

  /** `enqueue`'s insert, once the message and its observation are accepted. */
  function Insert(b: Box, key: NoticeKey, confirmations: int, observation: nat, now: Time, horizon: Time,
                  max: nat): Box {
    if key in b.notices then b
    else
      var row := Row(confirmations, observation, Available, 0, max, now, None, None, None, None, None, None,
        now + horizon);
      b.(notices := b.notices[key := Notice(row, [])])
  }

  function ExpireOne(b: Box, key: NoticeKey, now: Time): Box {
    if key in b.notices && Expirable(b.notices[key].row, now)
    then b.(notices := b.notices[key := ExpiredNotice(b.notices[key], now)]) else b
  }

  function ExpireAll(b: Box, keys: seq<NoticeKey>, now: Time): Box
    decreases |keys|
  {
    if keys == [] then b else ExpireAll(ExpireOne(b, keys[0], now), keys[1..], now)
  }

  /** One row of the claim query; `SKIP LOCKED` lets it be any claimable row. */
  function ClaimOne(b: Box, key: NoticeKey, w: string, now: Time, leaseFor: Time): (Box, Option<Claim>) {
    if key !in b.notices || !Claimable(b.notices[key].row, now) then (b, None)
    else
      var n := ClaimedNotice(b.notices[key], w, now, leaseFor, b.nextToken);
      (Box(b.notices[key := n], b.nextToken + 1), Some(Claim(key, n.row.attemptCount, w, b.nextToken)))
  }

  /** `claim`: expire the selected rows, then lease at most one. */
  function ClaimNext(b: Box, selected: seq<NoticeKey>, pick: Option<NoticeKey>, w: string, now: Time, leaseFor: Time)
    : (Box, Option<Claim>)
  {
    if !ValidClaimRequest(w, leaseFor) || |selected| > EXPIRE_LIMIT then (b, None)
    else
      var expired := ExpireAll(b, selected, now);
      match pick
      case None => (expired, None)
      case Some(key) => ClaimOne(expired, key, w, now, leaseFor)
  }

  datatype RecordError = LeaseStale | AttemptMissing | ProviderIdTaken | InvalidInput

  /** `_active_lease`: the claim's row is still leased under its token, and its attempt is still open. */
  predicate LeaseActive(b: Box, c: Claim, now: Time) {
    && c.key in b.notices
    && (var r := b.notices[c.key].row;
        && r.state == Leased && r.leaseOwner == Some(c.owner) && r.leaseToken == Some(c.token)
        && r.attemptCount == c.attempt && r.leaseUntil.Some? && r.leaseUntil.value >= now && r.providerId.None?)
  }

  function RecordWith(b: Box, c: Claim, now: Time, outcome: Outcome, row: Row): Result<Box, RecordError> {
    if !LeaseActive(b, c, now) then Err(LeaseStale)
    else
      match FindOpen(b.notices[c.key].attempts, c.attempt, c.token)
      case None => Err(AttemptMissing)
      case Some(i) => Ok(b.(notices := b.notices[c.key := FinishedNotice(b.notices[c.key], i, now, outcome, row)]))
  }

  predicate ProviderIdUsed(b: Box, id: string) {
    exists k :: k in b.notices && b.notices[k].row.providerId == Some(id)
  }

  function RowOf(b: Box, c: Claim): Row
    requires c.key in b.notices
  { b.notices[c.key].row }

  /** `record_accepted` before it looks for a delivery that came first; provider ids are unique in the table. */
  function RecordAccepted(b: Box, c: Claim, id: string, status: int, now: Time): Result<Box, RecordError> {
    if status != 200 || !(1 <= |id| <= 128) then Err(InvalidInput)
    else if !LeaseActive(b, c, now) then Err(LeaseStale)
    else if ProviderIdUsed(b, id) then Err(ProviderIdTaken)
    else RecordWith(b, c, now, WasAccepted, AcceptedRow(RowOf(b, c), id, now))
  }

  function RecordRetry(b: Box, c: Claim, now: Time, retryAt: Time): Result<Box, RecordError> {
    if retryAt <= now then Err(InvalidInput)
    else if !LeaseActive(b, c, now) then Err(LeaseStale)
    else
      var exhausted := RetryExhausted(RowOf(b, c), retryAt);
      RecordWith(b, c, now, if exhausted then DeadLettered else WillRetry, RetriedRow(RowOf(b, c), retryAt))
  }

  function RecordTerminalFailure(b: Box, c: Claim, now: Time): Result<Box, RecordError> {
    if !LeaseActive(b, c, now) then Err(LeaseStale)
    else RecordWith(b, c, now, WasFailed, Unleased(RowOf(b, c), Failed))
  }

  /** The part of a webhook that touches an accepted row. */
  function Bounce(b: Box, key: NoticeKey): Box {
    if key !in b.notices || b.notices[key].row.acceptedAt.None? then b
    else b.(notices := b.notices[key := b.notices[key].(row := BouncedRow(b.notices[key].row))])
  }

  function Deliver(b: Box, key: NoticeKey, at: Time): Box {
    if key !in b.notices || b.notices[key].row.acceptedAt.None? || b.notices[key].row.state !in {Accepted, Failed}
    then b
    else b.(notices := b.notices[key := b.notices[key].(row := DeliveredRow(b.notices[key].row, at))])
  }

  // ---------------------------------------------------------------- runs

  datatype Step =
    | DoInsert(key: NoticeKey, confirmations: int, observation: nat, now: Time, horizon: Time, max: nat)
    | DoClaim(selected: seq<NoticeKey>, pick: Option<NoticeKey>, w: string, now: Time, leaseFor: Time)
    | DoAccept(claim: Claim, id: string, status: int, now: Time)
    | DoRetry(claim: Claim, now: Time, retryAt: Time)
    | DoFail(claim: Claim, now: Time)
    | DoBounce(key: NoticeKey)
    | DoDeliver(key: NoticeKey, at: Time)

  function Committed(b: Box, r: Result<Box, RecordError>): Box {
    match r
    case Ok(b') => b'
    case Err(_) => b
  }

  function Next(b: Box, s: Step): Box {
    match s
    case DoInsert(k, c, o, now, h, m) => Insert(b, k, c, o, now, h, m)
    case DoClaim(keys, pick, w, now, d) => ClaimNext(b, keys, pick, w, now, d).0
    case DoAccept(c, id, status, now) => Committed(b, RecordAccepted(b, c, id, status, now))
    case DoRetry(c, now, at) => Committed(b, RecordRetry(b, c, now, at))
    case DoFail(c, now) => Committed(b, RecordTerminalFailure(b, c, now))
    case DoBounce(k) => Bounce(b, k)
    case DoDeliver(k, at) => Deliver(b, k, at)
  }

  function Run(b: Box, steps: seq<Step>): Box
    decreases |steps|
  {
    if steps == [] then b else Run(Next(b, steps[0]), steps[1..])
  }

  // ---------------------------------------------------------------- invariant

  /** Attempts are numbered 1, 2, ... and only the last can be open. */
  ghost predicate AttemptsInv(attempts: seq<Attempt>, leased: bool) {
    && (forall i :: 0 <= i < |attempts| ==> attempts[i].number == i + 1)
    && (forall i :: 0 <= i < |attempts| ==>
          (Open(attempts[i]) <==> leased && i == |attempts| - 1) && (Open(attempts[i]) <==> attempts[i].outcome.None?))
    && (leased ==> |attempts| > 0)
  }

  /** An accepting attempt exists exactly when the provider id is set, and it is the last one. */
  ghost predicate AcceptanceInv(attempts: seq<Attempt>, accepted: bool) {
    && (forall i :: 0 <= i < |attempts| ==>
          (attempts[i].outcome == Some(WasAccepted) <==> accepted && i == |attempts| - 1))
    && (accepted ==> |attempts| > 0)
  }

  ghost predicate LeaseInv(n: Notice, nextToken: nat) {
    var r := n.row;
    && (r.state == Leased <==> r.leaseOwner.Some?)
    && (r.state == Leased <==> r.leaseUntil.Some?)
    && (r.state == Leased <==> r.leaseToken.Some?)
    && (r.state == Leased && |n.attempts| > 0 ==>
          var a := n.attempts[|n.attempts| - 1];
          r.leaseToken == Some(a.token) && r.leaseOwner == Some(a.worker)
          && r.availableAt <= a.startedAt < r.leaseUntil.value)
    && (forall i :: 0 <= i < |n.attempts| ==> n.attempts[i].token < nextToken && n.attempts[i].startedAt < r.expiresAt)
  }

  ghost predicate NoticeInv(n: Notice, nextToken: nat) {
    && |n.attempts| == n.row.attemptCount <= n.row.maxAttempts
    && AttemptsInv(n.attempts, n.row.state == Leased)
    && AcceptanceInv(n.attempts, n.row.providerId.Some?)
    && LeaseInv(n, nextToken)
    && (n.row.providerId.Some? <==> n.row.acceptedAt.Some?)
    && (n.row.providerId.Some? ==> n.row.state in {Accepted, Failed, Delivered})
    && (n.row.state in {Accepted, Delivered} ==> n.row.providerId.Some?)
    && (n.row.state == Delivered <==> n.row.deliveredAt.Some?)
  }

  ghost predicate Inv(b: Box) {
    && (forall k {:trigger NoticeInv(b.notices[k], b.nextToken)} :: k in b.notices ==>
          NoticeInv(b.notices[k], b.nextToken))
    && ProviderIdsUnique(b.notices)
  }

  ghost predicate ProviderIdsUnique(notices: map<NoticeKey, Notice>) {
    forall j, k ::
      (j in notices && k in notices && j != k && notices[j].row.providerId.Some?) ==>
        notices[j].row.providerId != notices[k].row.providerId
  }
}
