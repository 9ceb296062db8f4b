/** The notification outbox as the dispatcher sees it: methods that update the rows in place. */
module OutboxStore {
  import opened Prelude
  import opened Outbox

  ghost predicate NoneExpirable(notices: map<NoticeKey, Notice>, now: Time) {
    forall k :: k in notices ==> !Expirable(notices[k].row, now)
  }

  class SqlNotificationOutbox {
    var notices: map<NoticeKey, Notice>
    var nextToken: nat

    constructor ()
      ensures Contents() == Box(map[], 0)
    {
      notices, nextToken := map[], 0;
    }

    ghost function Contents(): Box
      reads this
    {
      Box(notices, nextToken)
    }

    /**
     `claim`: the expiry loop over at most 100 rows, then one lease.  It leaves an expirable row behind only when
     the limit is met, and reports nothing only when no row can be claimed.
     */
    method Claim(w: string, now: Time, leaseFor: Time) returns (claim: Option<Claim>)
      modifies this
      ensures exists selected, pick ::
                && (Contents(), claim) == ClaimNext(old(Contents()), selected, pick, w, now, leaseFor)
                && (ValidClaimRequest(w, leaseFor) && |selected| < EXPIRE_LIMIT ==> NoneExpirable(notices, now))
      ensures ValidClaimRequest(w, leaseFor) && claim.None? ==>
                forall k :: k in notices ==> !Claimable(notices[k].row, now)
    {
      ghost var before := Contents();
      if !ValidClaimRequest(w, leaseFor) {
        assert (Contents(), None) == ClaimNext(before, [], None, w, now, leaseFor);
        return None;
      }
      var selected := ExpireUnclaimable(now);
      var answer := set k | k in notices && Claimable(notices[k].row, now);
      if answer == {} {
        assert forall k :: k in notices && Claimable(notices[k].row, now) ==> k in answer;
        assert (Contents(), None) == ClaimNext(before, selected, None, w, now, leaseFor);
        return None;
      }
      var key :| key in answer;
      claim := LeaseRow(key, w, now, leaseFor);
      assert (Contents(), claim) == ClaimNext(before, selected, Some(key), w, now, leaseFor);
    }

    method ExpireUnclaimable(now: Time) returns (expired: seq<NoticeKey>)
      modifies this
      ensures |expired| <= EXPIRE_LIMIT && Contents() == ExpireAll(old(Contents()), expired, now)
      ensures |expired| < EXPIRE_LIMIT ==> NoneExpirable(notices, now)
    {
      ghost var before := Contents();
      expired := [];
      var candidates := set k | k in notices && Expirable(notices[k].row, now);
      while candidates != {} && |expired| < EXPIRE_LIMIT
        invariant |expired| <= EXPIRE_LIMIT
        invariant forall k :: k in candidates ==> k in notices && Expirable(notices[k].row, now)
        invariant forall k :: k in notices && Expirable(notices[k].row, now) ==> k in candidates
        invariant Contents() == ExpireAll(before, expired, now)
        decreases candidates
      {
        var key :| key in candidates;
        ExpireAllSnoc(before, expired, key, now);
        ExpireRow(key, now);
        expired := expired + [key];
        candidates := candidates - {key};
      }
    }

    method ExpireRow(key: NoticeKey, now: Time)
      requires key in notices && Expirable(notices[key].row, now)
      modifies this
      ensures Contents() == ExpireOne(old(Contents()), key, now)
      ensures notices == old(notices)[key := notices[key]] && !Expirable(notices[key].row, now)
    {
      var notice := notices[key];
      if notice.row.state == Leased {
        var open := FirstOpen(notice.attempts);
        if open.Some? {
          var attempt := notice.attempts[open.value].(finishedAt := Some(now), outcome := Some(DeadLettered));
          notice := notice.(attempts := notice.attempts[open.value := attempt]);
        }
      }
      var row := notice.row.(state := DeadLetter);
      row := row.(leaseOwner := None, leaseUntil := None, leaseToken := None);
      notices := notices[key := notice.(row := row)];
    }

    method LeaseRow(key: NoticeKey, w: string, now: Time, leaseFor: Time) returns (claim: Option<Claim>)
      requires key in notices && Claimable(notices[key].row, now)
      modifies this
      ensures (Contents(), claim) == ClaimOne(old(Contents()), key, w, now, leaseFor)
    {
      var notice := notices[key];
      var previous := FirstOpen(notice.attempts);
      var token := nextToken;
      nextToken := nextToken + 1;
      var number := notice.row.attemptCount + 1;
      var row := notice.row.(state := Leased, attemptCount := number);
      row := row.(leaseOwner := Some(w), leaseUntil := Some(now + leaseFor), leaseToken := Some(token));
      var attempts := notice.attempts;
      if previous.Some? {
        var stale := attempts[previous.value].(finishedAt := Some(now), outcome := Some(LeaseExpired));
        attempts := attempts[previous.value := stale];
      }
      attempts := attempts + [Attempt(number, w, token, now, None, None)];
      notices := notices[key := Notice(row, attempts)];
      claim := Some(Outbox.Claim(key, number, w, token));
    }

    method AcceptRecord(c: Claim, id: string, status: int, now: Time) returns (error: Option<RecordError>)
      modifies this
      ensures match RecordAccepted(old(Contents()), c, id, status, now)
              case Ok(b) => Contents() == b && error == None
              case Err(e) => Contents() == old(Contents()) && error == Some(e)
    {
      if status != 200 || !(1 <= |id| <= 128) { return Some(InvalidInput); }
      if !Active(c, now) { return Some(LeaseStale); }
      if exists k :: k in notices && notices[k].row.providerId == Some(id) { return Some(ProviderIdTaken); }
      var row := notices[c.key].row.(state := Accepted, providerId := Some(id), acceptedAt := Some(now));
      row := row.(leaseOwner := None, leaseUntil := None, leaseToken := None);
      error := FinishAttempt(c, now, WasAccepted, row);
    }

    method RetryRecord(c: Claim, now: Time, retryAt: Time) returns (error: Option<RecordError>)
      modifies this
      ensures match RecordRetry(old(Contents()), c, now, retryAt)
              case Ok(b) => Contents() == b && error == None
              case Err(e) => Contents() == old(Contents()) && error == Some(e)
    {
      if retryAt <= now { return Some(InvalidInput); }
      if !Active(c, now) { return Some(LeaseStale); }
      var row := notices[c.key].row;
      var exhausted := retryAt >= row.expiresAt || row.attemptCount >= row.maxAttempts;
      row := row.(state := if exhausted then DeadLetter else Retry);
      row := row.(availableAt := retryAt, leaseOwner := None, leaseUntil := None, leaseToken := None);
      error := FinishAttempt(c, now, if exhausted then DeadLettered else WillRetry, row);
    }

    method FailRecord(c: Claim, now: Time) returns (error: Option<RecordError>)
      modifies this
      ensures match RecordTerminalFailure(old(Contents()), c, now)
              case Ok(b) => Contents() == b && error == None
              case Err(e) => Contents() == old(Contents()) && error == Some(e)
    {
      if !Active(c, now) { return Some(LeaseStale); }
      var row := notices[c.key].row.(state := Failed);
      row := row.(leaseOwner := None, leaseUntil := None, leaseToken := None);
      error := FinishAttempt(c, now, WasFailed, row);
    }

    predicate Active(c: Claim, now: Time)
      reads this
      ensures Active(c, now) <==> LeaseActive(Contents(), c, now)
    {
      && c.key in notices && notices[c.key].row.state == Leased
      && notices[c.key].row.leaseOwner == Some(c.owner) && notices[c.key].row.leaseToken == Some(c.token)
      && notices[c.key].row.attemptCount == c.attempt
      && notices[c.key].row.leaseUntil.Some? && notices[c.key].row.leaseUntil.value >= now
      && notices[c.key].row.providerId.None?
    }

    method FinishAttempt(c: Claim, now: Time, outcome: Outcome, row: Row) returns (error: Option<RecordError>)
      requires Active(c, now)
      modifies this
      ensures match RecordWith(old(Contents()), c, now, outcome, row)
              case Ok(b) => Contents() == b && error == None
              case Err(e) => Contents() == old(Contents()) && error == Some(e)
    {
      var open := FindOpen(notices[c.key].attempts, c.attempt, c.token);
      if open.None? { return Some(AttemptMissing); }
      var attempts := notices[c.key].attempts;
      attempts := attempts[open.value := attempts[open.value].(finishedAt := Some(now), outcome := Some(outcome))];
      notices := notices[c.key := Notice(row, attempts)];
      error := None;
    }
  }

  lemma {:induction false} ExpireAllSnoc(b: Box, keys: seq<NoticeKey>, key: NoticeKey, now: Time)
    ensures ExpireAll(b, keys + [key], now) == ExpireOne(ExpireAll(b, keys, now), key, now)
    decreases |keys|
  {
    if keys == [] {
      assert ([] + [key])[1..] == [];
      assert ExpireAll(b, [key], now) == ExpireAll(ExpireOne(b, key, now), [], now);
      assert keys + [key] == [key];
    } else {
      assert (keys + [key])[1..] == keys[1..] + [key];
      ExpireAllSnoc(ExpireOne(b, keys[0], now), keys[1..], key, now);
    }
  }
}
