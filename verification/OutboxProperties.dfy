/** The outbox lease invariant over every run, and what it means for a claim. */
module OutboxProperties {
  import opened Prelude
  import opened Outbox

  // ---------------------------------------------------------------- what one transaction may do to a notice

  /** Attempts are only appended, and a finished one never changes. */
  ghost predicate AttemptsGrow(a: seq<Attempt>, a': seq<Attempt>) {
    && |a| <= |a'|
    && (forall i :: 0 <= i < |a| ==>
          && a'[i].number == a[i].number && a'[i].token == a[i].token && a'[i].startedAt == a[i].startedAt
          && (!Open(a[i]) ==> a'[i] == a[i]))
  }

  /**
   A notice keeps its milestone and its budget; an accepted one keeps its provider id and is never tried again;
   a delivered one stays as it is; a lease token is kept or fresh.
   */
  ghost predicate Grows(n: Notice, n': Notice, nextToken: nat) {
    && AttemptsGrow(n.attempts, n'.attempts)
    && n'.row.confirmations == n.row.confirmations && n'.row.observation == n.row.observation
    && n'.row.maxAttempts == n.row.maxAttempts && n'.row.expiresAt == n.row.expiresAt
    && (n.row.providerId.Some? ==>
          n'.row.providerId == n.row.providerId && n'.row.acceptedAt == n.row.acceptedAt && n'.attempts == n.attempts)
    && (n.row.state == Delivered ==> n' == n)
    && (n'.row.leaseToken.Some? ==> n'.row.leaseToken == n.row.leaseToken || n'.row.leaseToken.value >= nextToken)
    && (n'.row.leaseToken.Some? && n'.row.leaseToken == n.row.leaseToken ==> n' == n)
  }

  ghost predicate Extends(b: Box, b': Box) {
    && b.nextToken <= b'.nextToken
    && b.notices.Keys <= b'.notices.Keys
    && (forall k {:trigger b'.notices[k]} :: k in b.notices ==> Grows(b.notices[k], b'.notices[k], b.nextToken))
  }

  lemma FirstOpenIsLast(attempts: seq<Attempt>, leased: bool)
    requires AttemptsInv(attempts, leased)
    ensures FirstOpen(attempts) == if leased then Some(|attempts| - 1) else None
  {
    var r := FirstOpen(attempts);
    if leased { assert Open(attempts[|attempts| - 1]); }
  }

  /** The holder of an active lease finds exactly the last attempt. */
  lemma FindOpenIsLast(n: Notice, number: nat, token: nat, nextToken: nat)
    requires NoticeInv(n, nextToken) && n.row.state == Leased
    requires n.row.attemptCount == number && n.row.leaseToken == Some(token)
    ensures |n.attempts| > 0 && FindOpen(n.attempts, number, token) == Some(|n.attempts| - 1)
  {
    var last := n.attempts[|n.attempts| - 1];
    assert Open(last) && last.number == number && last.token == token;
    var r := FindOpen(n.attempts, number, token);
    assert r.Some?;
    assert Open(n.attempts[r.value]);
  }

  lemma InvMonotone(n: Notice, t: nat, t': nat)
    requires NoticeInv(n, t) && t <= t'
    ensures NoticeInv(n, t')
  {
  }

  lemma ClaimedKeeps(n: Notice, w: string, now: Time, leaseFor: Time, token: nat)
    requires NoticeInv(n, token) && Claimable(n.row, now) && leaseFor > 0
    ensures NoticeInv(ClaimedNotice(n, w, now, leaseFor, token), token + 1)
    ensures Grows(n, ClaimedNotice(n, w, now, leaseFor, token), token)
  {
    FirstOpenIsLast(n.attempts, n.row.state == Leased);
    var n' := ClaimedNotice(n, w, now, leaseFor, token);
    assert |n'.attempts| == |n.attempts| + 1;
    assert n'.attempts[|n.attempts|] == Attempt(n.row.attemptCount + 1, w, token, now, None, None);
  }

  lemma ExpiredKeeps(n: Notice, now: Time, token: nat)
    requires NoticeInv(n, token) && Expirable(n.row, now)
    ensures NoticeInv(ExpiredNotice(n, now), token) && Grows(n, ExpiredNotice(n, now), token)
  {
    FirstOpenIsLast(n.attempts, n.row.state == Leased);
  }

  /** Recording an outcome closes the holder's attempt and releases the lease. */
  lemma FinishedKeeps(n: Notice, now: Time, outcome: Outcome, row: Row, token: nat)
    requires NoticeInv(n, token) && n.row.state == Leased
    requires row == n.row.(state := row.state, leaseOwner := None, leaseUntil := None, leaseToken := None,
                           availableAt := row.availableAt, providerId := row.providerId, acceptedAt := row.acceptedAt)
    requires row.state !in {Leased, Delivered}
    requires (row.state == Accepted <==> outcome == WasAccepted) && (row.state == Accepted <==> row.providerId.Some?)
    requires row.providerId.Some? <==> row.acceptedAt.Some?
    ensures var n' := FinishedNotice(n, |n.attempts| - 1, now, outcome, row);
            NoticeInv(n', token) && Grows(n, n', token)
  {
  }

  lemma WebhookKeeps(n: Notice, at: Time, token: nat)
    requires NoticeInv(n, token) && n.row.acceptedAt.Some?
    ensures NoticeInv(n.(row := BouncedRow(n.row)), token) && Grows(n, n.(row := BouncedRow(n.row)), token)
    ensures n.row.state in {Accepted, Failed} ==>
              NoticeInv(n.(row := DeliveredRow(n.row, at)), token)
                && Grows(n, n.(row := DeliveredRow(n.row, at)), token)
  {
  }

  // ---------------------------------------------------------------- what one transaction may do to the box

  lemma ReplaceKeeps(b: Box, key: NoticeKey, n': Notice, next': nat)
    requires Inv(b) && key in b.notices && b.nextToken <= next'
    requires NoticeInv(n', next') && Grows(b.notices[key], n', b.nextToken)
    requires n'.row.providerId.Some? && n'.row.providerId != b.notices[key].row.providerId ==>
               !ProviderIdUsed(b, n'.row.providerId.value)
    ensures Inv(Box(b.notices[key := n'], next')) && Extends(b, Box(b.notices[key := n'], next'))
  {
    var b' := Box(b.notices[key := n'], next');
    forall k | k in b'.notices ensures NoticeInv(b'.notices[k], next') {
      if k != key { assert NoticeInv(b.notices[k], b.nextToken); InvMonotone(b.notices[k], b.nextToken, next'); }
    }
    forall k | k in b.notices ensures Grows(b.notices[k], b'.notices[k], b.nextToken) {}
  }

  lemma ExtendsRefl(b: Box)
    ensures Extends(b, b)
  {
  }

  lemma CurrentTokenIsOld(n: Notice, t: nat)
    requires NoticeInv(n, t) && n.row.leaseToken.Some?
    ensures n.row.leaseToken.value < t
  {
    var last := n.attempts[|n.attempts| - 1];
    assert last.token < t;
  }

  lemma GrowsTrans(n: Notice, m: Notice, o: Notice, t: nat, t': nat)
    requires Grows(n, m, t) && Grows(m, o, t') && t <= t'
    requires NoticeInv(n, t) && NoticeInv(m, t')
    ensures Grows(n, o, t)
  {
    if n.row.leaseToken.Some? { CurrentTokenIsOld(n, t); }
  }

  lemma ExtendsTrans(b: Box, c: Box, d: Box)
    requires Inv(b) && Inv(c) && Extends(b, c) && Extends(c, d)
    ensures Extends(b, d)
  {
    forall k | k in b.notices ensures Grows(b.notices[k], d.notices[k], b.nextToken) {
      assert Grows(b.notices[k], c.notices[k], b.nextToken);
      assert k in c.notices && Grows(c.notices[k], d.notices[k], c.nextToken);
      assert NoticeInv(b.notices[k], b.nextToken) && NoticeInv(c.notices[k], c.nextToken);
      GrowsTrans(b.notices[k], c.notices[k], d.notices[k], b.nextToken, c.nextToken);
    }
  }

  lemma ExpireOneKeeps(b: Box, key: NoticeKey, now: Time)
    requires Inv(b)
    ensures Inv(ExpireOne(b, key, now)) && Extends(b, ExpireOne(b, key, now))
    ensures ExpireOne(b, key, now).nextToken == b.nextToken
  {
    ExtendsRefl(b);
    if key in b.notices && Expirable(b.notices[key].row, now) {
      assert NoticeInv(b.notices[key], b.nextToken);
      ExpiredKeeps(b.notices[key], now, b.nextToken);
      ReplaceKeeps(b, key, ExpiredNotice(b.notices[key], now), b.nextToken);
    }
  }

  lemma {:induction false} ExpireAllKeeps(b: Box, keys: seq<NoticeKey>, now: Time)
    requires Inv(b)
    ensures Inv(ExpireAll(b, keys, now)) && Extends(b, ExpireAll(b, keys, now))
    decreases |keys|
  {
    ExtendsRefl(b);
    if keys != [] {
      var c := ExpireOne(b, keys[0], now);
      ExpireOneKeeps(b, keys[0], now);
      ExpireAllKeeps(c, keys[1..], now);
      ExtendsTrans(b, c, ExpireAll(c, keys[1..], now));
    }
  }

  lemma ClaimNextKeeps(b: Box, selected: seq<NoticeKey>, pick: Option<NoticeKey>, w: string, now: Time, leaseFor: Time)
    requires Inv(b)
    ensures Inv(ClaimNext(b, selected, pick, w, now, leaseFor).0)
    ensures Extends(b, ClaimNext(b, selected, pick, w, now, leaseFor).0)
  {
    ExtendsRefl(b);
    var c := ExpireAll(b, selected, now);
    ExpireAllKeeps(b, selected, now);
    if ValidClaimRequest(w, leaseFor) && |selected| <= EXPIRE_LIMIT && pick.Some? {
      var key := pick.value;
      ExtendsRefl(c);
      if key in c.notices && Claimable(c.notices[key].row, now) {
        assert NoticeInv(c.notices[key], c.nextToken);
        ClaimedKeeps(c.notices[key], w, now, leaseFor, c.nextToken);
        ReplaceKeeps(c, key, ClaimedNotice(c.notices[key], w, now, leaseFor, c.nextToken), c.nextToken + 1);
      }
      ExtendsTrans(b, c, ClaimOne(c, key, w, now, leaseFor).0);
    }
  }

  lemma RecordKeeps(b: Box, c: Claim, now: Time, outcome: Outcome, row: Row)
    requires Inv(b) && LeaseActive(b, c, now)
    requires var r := RowOf(b, c);
             row == r.(state := row.state, leaseOwner := None, leaseUntil := None, leaseToken := None,
                       availableAt := row.availableAt, providerId := row.providerId, acceptedAt := row.acceptedAt)
    requires row.state !in {Leased, Delivered}
    requires (row.state == Accepted <==> outcome == WasAccepted) && (row.state == Accepted <==> row.providerId.Some?)
    requires row.providerId.Some? <==> row.acceptedAt.Some?
    requires row.providerId.Some? ==> !ProviderIdUsed(b, row.providerId.value)
    ensures RecordWith(b, c, now, outcome, row).Ok?
    ensures var b' := RecordWith(b, c, now, outcome, row).value;
            && Inv(b') && Extends(b, b') && c.key in b'.notices && b'.notices[c.key].row == row
  {
    var n := b.notices[c.key];
    assert NoticeInv(n, b.nextToken);
    FindOpenIsLast(n, c.attempt, c.token, b.nextToken);
    FinishedKeeps(n, now, outcome, row, b.nextToken);
    ReplaceKeeps(b, c.key, FinishedNotice(n, |n.attempts| - 1, now, outcome, row), b.nextToken);
  }

  lemma InsertKeeps(b: Box, key: NoticeKey, confirmations: int, observation: nat, now: Time, horizon: Time, max: nat)
    requires Inv(b)
    ensures var b' := Insert(b, key, confirmations, observation, now, horizon, max); Inv(b') && Extends(b, b')
  {
    ExtendsRefl(b);
    if key !in b.notices {
      var row := Row(confirmations, observation, Available, 0, max, now, None, None, None, None, None, None,
        now + horizon);
      assert NoticeInv(Notice(row, []), b.nextToken);
      AddKeeps(b, key, Notice(row, []));
    }
  }

  lemma AddKeeps(b: Box, key: NoticeKey, n: Notice)
    requires Inv(b) && key !in b.notices && NoticeInv(n, b.nextToken) && n.row.providerId.None?
    ensures var b' := b.(notices := b.notices[key := n]); Inv(b') && Extends(b, b')
  {
    var b' := b.(notices := b.notices[key := n]);
    forall k | k in b'.notices ensures NoticeInv(b'.notices[k], b.nextToken) {
      if k != key { assert NoticeInv(b.notices[k], b.nextToken); }
    }
    forall k | k in b.notices ensures Grows(b.notices[k], b'.notices[k], b.nextToken) {
      assert b'.notices[k] == b.notices[k];
    }
  }

  lemma WebhooksKeep(b: Box, key: NoticeKey, at: Time)
    requires Inv(b)
    ensures Inv(Bounce(b, key)) && Extends(b, Bounce(b, key))
    ensures Inv(Deliver(b, key, at)) && Extends(b, Deliver(b, key, at))
  {
    ExtendsRefl(b);
    if key in b.notices && b.notices[key].row.acceptedAt.Some? {
      var n := b.notices[key];
      assert NoticeInv(n, b.nextToken);
      WebhookKeeps(n, at, b.nextToken);
      ReplaceKeeps(b, key, n.(row := BouncedRow(n.row)), b.nextToken);
      if n.row.state in {Accepted, Failed} { ReplaceKeeps(b, key, n.(row := DeliveredRow(n.row, at)), b.nextToken); }
    }
  }

  /** The lease invariant, and the growth of every notice, over each transaction. */
  lemma NextKeeps(b: Box, s: Step)
    requires Inv(b)
    ensures Inv(Next(b, s)) && Extends(b, Next(b, s))
  {
    ExtendsRefl(b);
    match s
    case DoInsert(k, c, o, now, h, m) => InsertKeeps(b, k, c, o, now, h, m);
    case DoClaim(keys, pick, w, now, d) => ClaimNextKeeps(b, keys, pick, w, now, d);
    case DoAccept(c, id, status, now) =>
      if LeaseActive(b, c, now) && !ProviderIdUsed(b, id) {
        RecordKeeps(b, c, now, WasAccepted, AcceptedRow(RowOf(b, c), id, now));
      }
    case DoRetry(c, now, at) =>
      if LeaseActive(b, c, now) {
        assert NoticeInv(b.notices[c.key], b.nextToken);
        var exhausted := RetryExhausted(RowOf(b, c), at);
        RecordKeeps(b, c, now, if exhausted then DeadLettered else WillRetry, RetriedRow(RowOf(b, c), at));
      }
    case DoFail(c, now) =>
      if LeaseActive(b, c, now) {
        assert NoticeInv(b.notices[c.key], b.nextToken);
        RecordKeeps(b, c, now, WasFailed, Unleased(RowOf(b, c), Failed));
      }
    case DoBounce(k) => WebhooksKeep(b, k, 0);
    case DoDeliver(k, at) => WebhooksKeep(b, k, at);
  }

  lemma {:induction false} RunKeeps(b: Box, steps: seq<Step>)
    requires Inv(b)
    ensures Inv(Run(b, steps)) && Extends(b, Run(b, steps))
    decreases |steps|
  {
    ExtendsRefl(b);
    if steps != [] {
      NextKeeps(b, steps[0]);
      RunKeeps(Next(b, steps[0]), steps[1..]);
      ExtendsTrans(b, Next(b, steps[0]), Run(b, steps));
    }
  }

  lemma EmptyInv()
    ensures Inv(Box(map[], 0))
  {
  }

  // ---------------------------------------------------------------- main results

  ghost predicate OnlyOpen(n: Notice, i: int) {
    && 0 <= i < |n.attempts| && Open(n.attempts[i])
    && forall j :: 0 <= j < |n.attempts| && Open(n.attempts[j]) ==> j == i
  }

  /** A notice is leased exactly when one attempt is open: number `attemptCount`, under the row's own token. */
  lemma LeasedExactlyWithOneOpenAttempt(b: Box, key: NoticeKey)
    requires Inv(b) && key in b.notices
    ensures var n := b.notices[key];
            n.row.state == Leased <==>
              exists i :: OnlyOpen(n, i) && n.attempts[i].number == n.row.attemptCount
                       && n.row.leaseToken == Some(n.attempts[i].token)
                          && n.row.leaseOwner == Some(n.attempts[i].worker)
    ensures var n := b.notices[key];
            n.row.state != Leased ==>
              n.row.leaseToken.None? && forall i :: 0 <= i < |n.attempts| ==> !Open(n.attempts[i])
  {
    var n := b.notices[key];
    assert NoticeInv(n, b.nextToken);
    if n.row.state == Leased { assert OnlyOpen(n, |n.attempts| - 1); }
  }

  ghost predicate HasHolder(b: Box, key: NoticeKey, now: Time) {
    exists c: Claim :: c.key == key && LeaseActive(b, c, now)
  }

  /** At every instant a leased notice either still answers to its holder or is open to reclaim, never both. */
  lemma ActiveOrReclaimable(b: Box, key: NoticeKey, now: Time)
    requires Inv(b) && key in b.notices && b.notices[key].row.state == Leased
    ensures HasHolder(b, key, now) <==> !(Claimable(b.notices[key].row, now) || Expirable(b.notices[key].row, now))
  {
    var n := b.notices[key];
    assert NoticeInv(n, b.nextToken);
    var r := n.row;
    if r.leaseUntil.value >= now {
      assert LeaseActive(b, Claim(key, r.attemptCount, r.leaseOwner.value, r.leaseToken.value), now);
    }
  }

  /** The holder of an active lease can always record what the provider answered. */
  lemma HolderRecords(b: Box, c: Claim, now: Time, retryAt: Time)
    requires Inv(b) && LeaseActive(b, c, now)
    ensures RecordTerminalFailure(b, c, now).Ok?
    ensures RecordRetry(b, c, now, retryAt).Ok? <==> retryAt > now
  {
    assert NoticeInv(b.notices[c.key], b.nextToken);
    FindOpenIsLast(b.notices[c.key], c.attempt, c.token, b.nextToken);
  }

  /** Once a provider id is recorded the notice is never claimed, expired or recorded again, in any run. */
  lemma AcceptedForever(b: Box, steps: seq<Step>, key: NoticeKey)
    requires Inv(b) && key in b.notices && b.notices[key].row.providerId.Some?
    ensures var b' := Run(b, steps);
            && key in b'.notices
            && b'.notices[key].row.providerId == b.notices[key].row.providerId
            && b'.notices[key].attempts == b.notices[key].attempts
            && (forall now :: !Claimable(b'.notices[key].row, now) && !Expirable(b'.notices[key].row, now))
            && (forall c: Claim, now :: c.key == key ==> !LeaseActive(b', c, now))
  {
    RunKeeps(b, steps);
  }

  /** In every run a notice is tried at most `maxAttempts` times, only before its horizon, and accepted at most once. */
  lemma TriesAreBounded(steps: seq<Step>, key: NoticeKey)
    requires key in Run(Box(map[], 0), steps).notices
    ensures var n := Run(Box(map[], 0), steps).notices[key];
            && |n.attempts| <= n.row.maxAttempts
            && (forall i :: 0 <= i < |n.attempts| ==>
                  n.attempts[i].number == i + 1 && n.attempts[i].startedAt < n.row.expiresAt)
            && (forall i, j :: 0 <= i < |n.attempts| && 0 <= j < |n.attempts| ==>
                  n.attempts[i].outcome == Some(WasAccepted) && n.attempts[j].outcome == Some(WasAccepted) ==> i == j)
            && ((exists i :: 0 <= i < |n.attempts| && n.attempts[i].outcome == Some(WasAccepted))
                <==> n.row.providerId.Some?)
  {
    EmptyInv();
    RunKeeps(Box(map[], 0), steps);
    var b := Run(Box(map[], 0), steps);
    var n := b.notices[key];
    assert NoticeInv(n, b.nextToken);
    if n.row.providerId.Some? { assert n.attempts[|n.attempts| - 1].outcome == Some(WasAccepted); }
  }

  lemma InactiveRefuses(b: Box, c: Claim)
    requires forall now :: !LeaseActive(b, c, now)
    ensures forall now, retryAt :: RecordRetry(b, c, now, retryAt).Err?
    ensures forall now :: RecordTerminalFailure(b, c, now).Err?
    ensures forall now, id, status :: RecordAccepted(b, c, id, status, now).Err?
  {
    forall now, retryAt ensures RecordRetry(b, c, now, retryAt).Err? { assert !LeaseActive(b, c, now); }
    forall now ensures RecordTerminalFailure(b, c, now).Err? { assert !LeaseActive(b, c, now); }
    forall now, id, status ensures RecordAccepted(b, c, id, status, now).Err? { assert !LeaseActive(b, c, now); }
  }

  /** A claim that lost its lease never gets it back: every later record under it is refused. */
  lemma StaleForever(b: Box, steps: seq<Step>, c: Claim)
    requires Inv(b) && c.key in b.notices && c.token < b.nextToken
    requires b.notices[c.key].row.leaseToken != Some(c.token)
    ensures forall now :: !LeaseActive(Run(b, steps), c, now)
    ensures forall now, retryAt :: RecordRetry(Run(b, steps), c, now, retryAt).Err?
    ensures forall now :: RecordTerminalFailure(Run(b, steps), c, now).Err?
    ensures forall now, id, status :: RecordAccepted(Run(b, steps), c, id, status, now).Err?
  {
    RunKeeps(b, steps);
    var b' := Run(b, steps);
    assert Grows(b.notices[c.key], b'.notices[c.key], b.nextToken);
    InactiveRefuses(b', c);
  }

  /** A claim's token is fresh, so it fences off every claim granted before. */
  lemma ClaimSupersedes(b: Box, selected: seq<NoticeKey>, pick: Option<NoticeKey>, w: string, now: Time, leaseFor: Time)
    requires Inv(b) && ClaimNext(b, selected, pick, w, now, leaseFor).1.Some?
    ensures var (b', granted) := ClaimNext(b, selected, pick, w, now, leaseFor);
            && LeaseActive(b', granted.value, now)
            && now < b'.notices[granted.value.key].row.expiresAt
            && b'.notices[granted.value.key].row.providerId.None?
            && (forall c: Claim, later :: c.key == granted.value.key && c.token < b.nextToken ==>
                  !LeaseActive(b', c, later))
  {
    var c := ExpireAll(b, selected, now);
    ExpireAllKeeps(b, selected, now);
    assert NoticeInv(c.notices[pick.value], c.nextToken);
  }
}
