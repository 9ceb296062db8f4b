/** When each outbox transaction succeeds on a good box, what it answers, and what it writes. */
module OutboxOutcomes {
  import opened Prelude
  import opened Outbox
  import opened OutboxProperties

  /** The notice waits to be sent: nobody's, or under a lease that ran out. */
  predicate Waiting(r: Row, now: Time) {
    r.state == Available || r.state == Retry || (r.state == Leased && r.leaseUntil.Some? && r.leaseUntil.value < now)
  }

  /** No attempt is left, or the provider may have forgotten the idempotency key. */
  predicate Spent(r: Row, now: Time) { r.expiresAt <= now || r.attemptCount == r.maxAttempts }

  function Free(r: Row, state: State): Row {
    r.(state := state, leaseOwner := None, leaseUntil := None, leaseToken := None)
  }

  /** The attempts with the newest one finished. */
  function Ending(attempts: seq<Attempt>, now: Time, outcome: Outcome): seq<Attempt>
    requires attempts != []
  {
    var i := |attempts| - 1;
    attempts[i := attempts[i].(finishedAt := Some(now), outcome := Some(outcome))]
  }

  /** A notice under a new lease: a fresh token, the next attempt, and an attempt that ran out closed. */
  function Taken(n: Notice, w: string, now: Time, leaseFor: Time, token: nat): Notice {
    var number := n.row.attemptCount + 1;
    var earlier := if n.row.state == Leased && n.attempts != [] then Ending(n.attempts, now, LeaseExpired)
                   else n.attempts;
    Notice(n.row.(state := Leased, attemptCount := number, leaseOwner := Some(w), leaseUntil := Some(now + leaseFor),
                  leaseToken := Some(token)),
           earlier + [Attempt(number, w, token, now, None, None)])
  }

  /** A notice that is given up. */
  function GivenUp(n: Notice, now: Time): Notice {
    Notice(Free(n.row, DeadLetter),
           if n.row.state == Leased && n.attempts != [] then Ending(n.attempts, now, DeadLettered) else n.attempts)
  }

  lemma ClosesLast(n: Notice, token: nat, now: Time, outcome: Outcome)
    requires NoticeInv(n, token)
    ensures n.row.state == Leased ==> n.attempts != []
    ensures CloseOpen(n.attempts, now, outcome)
         == if n.row.state == Leased then Ending(n.attempts, now, outcome) else n.attempts
  {
  }

  // ---------------------------------------------------------------- enqueue, expire, claim

  /** A notice is put there once, due at once, with its horizon. */
  lemma InsertsExactly(b: Box, key: NoticeKey, confirmations: int, observation: nat, now: Time, horizon: Time, max: nat)
    ensures Insert(b, key, confirmations, observation, now, horizon, max)
         == if key in b.notices then b
            else
              b.(notices := b.notices[key := Notice(
                Row(confirmations, observation, Available, 0, max, now, None, None, None, None, None, None,
                  now + horizon),
                [])])
  {
  }

  /** A notice is given up exactly when it waits, is spent, and was never accepted. */
  predicate CanExpire(r: Row, now: Time) { Waiting(r, now) && Spent(r, now) && r.providerId.None? }

  lemma ExpiresExactly(b: Box, key: NoticeKey, now: Time)
    requires Inv(b)
    ensures ExpireOne(b, key, now)
         == if key in b.notices && CanExpire(b.notices[key].row, now)
            then b.(notices := b.notices[key := GivenUp(b.notices[key], now)]) else b
  {
    if key in b.notices {
      assert NoticeInv(b.notices[key], b.nextToken);
      ClosesLast(b.notices[key], b.nextToken, now, DeadLettered);
    }
  }

  /** The notice after the selected ones were expired. */
  function NoticeAfter(n: Notice, selected: bool, now: Time): Notice {
    if selected && CanExpire(n.row, now) then GivenUp(n, now) else n
  }

  /** Expiring selected notices gives up exactly those of them that can be, each once. */
  lemma {:induction false} ExpiresEach(b: Box, keys: seq<NoticeKey>, now: Time, k: NoticeKey)
    requires Inv(b) && k in b.notices
    ensures var b' := ExpireAll(b, keys, now);
            k in b'.notices && b'.notices[k] == NoticeAfter(b.notices[k], k in keys, now)
    decreases |keys|
  {
    if keys != [] {
      ExpiresExactly(b, keys[0], now);
      ExpireOneKeeps(b, keys[0], now);
      ExpiresEach(ExpireOne(b, keys[0], now), keys[1..], now, k);
      assert k in keys <==> k == keys[0] || k in keys[1..];
    }
  }

  lemma {:induction false} ExpiresNoOther(b: Box, keys: seq<NoticeKey>, now: Time)
    requires Inv(b)
    ensures var b' := ExpireAll(b, keys, now); b'.nextToken == b.nextToken && b'.notices.Keys == b.notices.Keys
    decreases |keys|
  {
    if keys != [] {
      ExpiresExactly(b, keys[0], now);
      ExpireOneKeeps(b, keys[0], now);
      ExpiresNoOther(ExpireOne(b, keys[0], now), keys[1..], now);
    }
  }

  lemma ExpiresAll(b: Box, keys: seq<NoticeKey>, now: Time)
    requires Inv(b)
    ensures var b' := ExpireAll(b, keys, now);
            && b'.nextToken == b.nextToken && b'.notices.Keys == b.notices.Keys
            && forall k :: k in b.notices ==> b'.notices[k] == NoticeAfter(b.notices[k], k in keys, now)
  {
    ExpiresNoOther(b, keys, now);
    forall k | k in b.notices ensures ExpireAll(b, keys, now).notices[k] == NoticeAfter(b.notices[k], k in keys, now) {
      ExpiresEach(b, keys, now, k);
    }
  }

  /** A notice is leased exactly when it waits, is due, is not spent, and was never accepted. */
  predicate CanClaim(r: Row, now: Time) {
    Waiting(r, now) && !Spent(r, now) && r.availableAt <= now && r.providerId.None?
  }

  lemma ClaimsOne(b: Box, key: NoticeKey, w: string, now: Time, leaseFor: Time)
    requires Inv(b)
    ensures ClaimOne(b, key, w, now, leaseFor)
         == if key in b.notices && CanClaim(b.notices[key].row, now) then
              (Box(b.notices[key := Taken(b.notices[key], w, now, leaseFor, b.nextToken)], b.nextToken + 1),
               Some(Claim(key, b.notices[key].row.attemptCount + 1, w, b.nextToken)))
            else (b, None)
  {
    if key in b.notices {
      assert NoticeInv(b.notices[key], b.nextToken);
      ClosesLast(b.notices[key], b.nextToken, now, LeaseExpired);
    }
  }

  /**
   A claim with a proper worker and lease first gives up what can be, then leases the picked notice if it still can; it
   never gives up what it could have leased.
   */
  lemma ClaimsExactly(b: Box, selected: seq<NoticeKey>, pick: Option<NoticeKey>, w: string, now: Time, leaseFor: Time)
    requires Inv(b)
    ensures var (b', granted) := ClaimNext(b, selected, pick, w, now, leaseFor);
            if !(1 <= |w| <= 128) || !(1_000_000 <= leaseFor <= 3_600_000_000) || |selected| > 100 then
              b' == b && granted == None
            else
              && b'.notices.Keys == b.notices.Keys
              && (granted.Some? <==> pick.Some? && pick.value in b.notices && CanClaim(b.notices[pick.value].row, now))
              && (granted.Some? ==>
                    && granted == Some(Claim(pick.value, b.notices[pick.value].row.attemptCount + 1, w, b.nextToken))
                    && b'.notices[pick.value] == Taken(b.notices[pick.value], w, now, leaseFor, b.nextToken))
              && b'.nextToken == b.nextToken + (if granted.Some? then 1 else 0)
              && (forall k :: k in b.notices && (granted.Some? ==> k != pick.value) ==>
                    b'.notices[k] == NoticeAfter(b.notices[k], k in selected, now))
  {
    if ValidClaimRequest(w, leaseFor) && |selected| <= EXPIRE_LIMIT {
      ExpiresAll(b, selected, now);
      ExpireAllKeeps(b, selected, now);
      if pick.Some? { ClaimsOne(ExpireAll(b, selected, now), pick.value, w, now, leaseFor); }
    }
  }

  // ---------------------------------------------------------------- records

  /** The claim's lease still runs, under its token. */
  predicate Holder(b: Box, c: Claim, now: Time) {
    && c.key in b.notices
    && (var r := b.notices[c.key].row;
        && r.state == Leased && r.leaseToken == Some(c.token) && r.leaseOwner == Some(c.owner)
        && r.attemptCount == c.attempt && r.leaseUntil.Some? && now <= r.leaseUntil.value)
  }

  /** The box with the claim's notice recorded: its newest attempt finished, its lease given back. */
  function Recorded(b: Box, c: Claim, now: Time, outcome: Outcome, row: Row): Box
    requires c.key in b.notices && b.notices[c.key].attempts != []
  {
    b.(notices := b.notices[c.key := Notice(row, Ending(b.notices[c.key].attempts, now, outcome))])
  }

  lemma RecordsAs(b: Box, c: Claim, now: Time, outcome: Outcome, row: Row)
    requires Inv(b)
    ensures LeaseActive(b, c, now) <==> Holder(b, c, now)
    ensures Holder(b, c, now) ==>
              b.notices[c.key].attempts != []
                && RecordWith(b, c, now, outcome, row) == Ok(Recorded(b, c, now, outcome, row))
  {
    if c.key in b.notices {
      assert NoticeInv(b.notices[c.key], b.nextToken);
      if Holder(b, c, now) { FindOpenIsLast(b.notices[c.key], c.attempt, c.token, b.nextToken); }
    }
  }

  /** An acceptance with status 200 and a proper id that no notice has is recorded for the holder. */
  lemma AcceptsExactly(b: Box, c: Claim, id: string, status: int, now: Time)
    requires Inv(b)
    ensures Holder(b, c, now) ==> b.notices[c.key].attempts != []
    ensures RecordAccepted(b, c, id, status, now)
         == if status != 200 || id == "" || |id| > 128 then Err(InvalidInput)
            else if !Holder(b, c, now) then Err(LeaseStale)
            else if exists k :: k in b.notices && b.notices[k].row.providerId == Some(id) then Err(ProviderIdTaken)
            else
              Ok(Recorded(b, c, now, WasAccepted,
                          Free(b.notices[c.key].row, Accepted).(providerId := Some(id), acceptedAt := Some(now))))
  {
    if c.key in b.notices { RecordsAs(b, c, now, WasAccepted, AcceptedRow(RowOf(b, c), id, now)); }
  }

  /** A retry at a later time is recorded for the holder: as a retry while attempts and horizon allow, else given up. */
  lemma RetriesExactly(b: Box, c: Claim, now: Time, retryAt: Time)
    requires Inv(b)
    ensures Holder(b, c, now) ==> b.notices[c.key].attempts != []
    ensures RecordRetry(b, c, now, retryAt)
         == if retryAt <= now then Err(InvalidInput)
            else if !Holder(b, c, now) then Err(LeaseStale)
            else
              var r := b.notices[c.key].row;
              if r.expiresAt <= retryAt || r.attemptCount == r.maxAttempts
              then Ok(Recorded(b, c, now, DeadLettered, Free(r, DeadLetter).(availableAt := retryAt)))
              else Ok(Recorded(b, c, now, WillRetry, Free(r, Retry).(availableAt := retryAt)))
  {
    if c.key in b.notices {
      assert NoticeInv(b.notices[c.key], b.nextToken);
      var exhausted := RetryExhausted(RowOf(b, c), retryAt);
      RecordsAs(b, c, now, if exhausted then DeadLettered else WillRetry, RetriedRow(RowOf(b, c), retryAt));
    }
  }

  lemma FailsExactly(b: Box, c: Claim, now: Time)
    requires Inv(b)
    ensures Holder(b, c, now) ==> b.notices[c.key].attempts != []
    ensures RecordTerminalFailure(b, c, now)
         == if !Holder(b, c, now) then Err(LeaseStale)
            else Ok(Recorded(b, c, now, WasFailed, Free(b.notices[c.key].row, Failed)))
  {
    if c.key in b.notices { RecordsAs(b, c, now, WasFailed, Unleased(RowOf(b, c), Failed)); }
  }
}
