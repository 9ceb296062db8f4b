/** Every order of acceptance and webhooks ends the same way, as long as a delivery event is among them. */
module DeliveryConfluence {
  import opened Prelude
  import opened Orders
  import opened Evidence
  import opened EvidenceInvariant
  import opened Delivery
  import O = Outbox
  import OP = OutboxProperties

  // ---------------------------------------------------------------- single steps

  lemma OnlyHolder(w: World, d: Sending, r: Rows)
    requires Inv(w, r) && HasProviderId(r, d.claim.key, d.id)
    ensures ByProviderId(r, d.id) == Some(d.claim.key)
  {
    var k := ByProviderId(r, d.id);
    assert HasProviderId(r, k.value, d.id);
  }

  lemma NobodyYet(r: Rows, id: string)
    requires !O.ProviderIdUsed(r.box, id)
    ensures ByProviderId(r, id) == None
  {
    assert forall k :: HasProviderId(r, k, id) ==> O.ProviderIdUsed(r.box, id);
  }

  /** A stored event is found again; an unknown one is not. */
  lemma FindEmailFacts(emails: seq<Email>, e: Email)
    requires forall x :: x in emails && x.svix == e.svix ==> x == e
    ensures FindEmail(emails, e.svix) == if e in emails then Some(e) else None
  {
  }

  function Kept(emails: seq<Email>, e: Email): seq<Email> { if e in emails then emails else emails + [e] }

  /** A webhook before acceptance is only stored. */
  lemma MailBefore(w: World, d: Sending, r: Rows, e: Email)
    requires Unsent(w, d, r) && e.providerId == d.id
    requires forall x :: x in r.emails && x.svix == e.svix ==> x == e
    ensures Next(w, d, r, Mail(e)) == r.(emails := Kept(r.emails, e))
    ensures Unsent(w, d, Next(w, d, r, Mail(e)))
  {
    NobodyYet(r, d.id);
    FindEmailFacts(r.emails, e);
    if e !in r.emails { EmailKeeps(w, r, e); }
    WebhookKeeps(w, r, e, r.(emails := Kept(r.emails, e)), WebhookResult(e in r.emails, false, false));
  }

  /** Applying a stored delivery event to an accepted notice of a verified order. */
  lemma ApplyDelivers(w: World, d: Sending, r: Rows, e: Email)
    requires Inv(w, r) && Ready(w, r, d.claim.key) && HasProviderId(r, d.claim.key, d.id)
    requires r.box.notices[d.claim.key].row.state in {O.Accepted, O.Failed} && r.fulfillment == BitcoinVerified
    requires e in r.emails && e.kind == EmailDelivered && e.providerId == d.id
    ensures var (r', delivered, transitioned) := ApplyDelivered(w, r, d.claim.key, e);
            && delivered && transitioned && Sent(w, d, r') && r'.fulfillment == Delivered
            && SameEvidence(r, r') && r'.emails == r.emails
  {
    var key := d.claim.key;
    assert O.NoticeInv(r.box.notices[key], r.box.nextToken);
    assert Applies(w, r, key, e);
    ApplyKeeps(w, r, key, e);
  }

  /** Once delivered, a further delivery event changes nothing. */
  lemma ApplyAgain(w: World, d: Sending, r: Rows, e: Email)
    requires Sent(w, d, r) && r.fulfillment == Delivered
    ensures ApplyDelivered(w, r, d.claim.key, e) == (r, false, false)
  {
  }

  /** Acceptance applies the delivery that came first, if one did. */
  lemma AcceptFirst(w: World, d: Sending, r: Rows)
    requires Unsent(w, d, r)
    ensures var r' := Next(w, d, r, Accept);
            && Sent(w, d, r') && SameEvidence(r, r') && r'.emails == r.emails
            && (r'.fulfillment == Delivered <==> HasDelivery(r.emails, Some(d.id)))
            && (r'.fulfillment != Delivered ==> r'.box.notices[d.claim.key].row.state == O.Accepted)
  {
    var key := d.claim.key;
    var row := O.AcceptedRow(O.RowOf(r.box, d.claim), d.id, d.now);
    OP.RecordKeeps(r.box, d.claim, d.now, O.WasAccepted, row);
    var box := O.RecordAccepted(r.box, d.claim, d.id, 200, d.now).value;
    AcceptedBoxKeeps(w, r, d.claim, d.id, 200, d.now, box);
    var m := r.(box := box);
    assert m.box.notices[key].row == row;
    assert Ready(w, m, key);
    var e := EarliestDelivered(r.emails, d.id);
    if e.Some? { ApplyDelivers(w, d, m, e.value); }
  }

  /** A second attempt to record the acceptance is refused. */
  lemma AcceptAgain(w: World, d: Sending, r: Rows)
    requires Sent(w, d, r)
    ensures Next(w, d, r, Accept) == r
  {
  }

  function NoticeState(r: Rows, d: Sending): Option<O.State> {
    if d.claim.key in r.box.notices then Some(r.box.notices[d.claim.key].row.state) else None
  }

  ghost predicate MailOutcome(d: Sending, r: Rows, e: Email, r': Rows) {
    && r'.emails == Kept(r.emails, e)
    && (r'.fulfillment == Delivered <==> r.fulfillment == Delivered || e.kind == EmailDelivered)
    && (r'.fulfillment != Delivered ==>
          NoticeState(r', d) == if e.kind == EmailBad && e !in r.emails then Some(O.Failed) else NoticeState(r, d))
  }

  lemma MailAfterReplay(w: World, d: Sending, r: Rows, e: Email)
    requires Sent(w, d, r) && e.providerId == d.id && e in r.emails
    requires forall x :: x in r.emails && x.svix == e.svix ==> x == e
    ensures Next(w, d, r, Mail(e)) == r
    ensures e.kind == EmailDelivered ==> r.fulfillment == Delivered
  {
    FindEmailFacts(r.emails, e);
    OnlyHolder(w, d, r);
    if e.kind == EmailDelivered {
      assert HasDelivery(r.emails, Some(d.id));
      ApplyAgain(w, d, r, e);
    }
  }

  lemma StoredIsSent(w: World, d: Sending, r: Rows, e: Email)
    requires Sent(w, d, r) && e.kind != EmailDelivered
    ensures Sent(w, d, r.(emails := r.emails + [e]))
  {
    EmailKeeps(w, r, e);
  }

  /** What a new webhook does once its provider id is known. */
  ghost function FreshMail(w: World, d: Sending, r: Rows, e: Email): Rows {
    var stored := r.(emails := r.emails + [e]);
    match e.kind
    case EmailDelivered => ApplyDelivered(w, stored, d.claim.key, e).0
    case EmailBad => stored.(box := O.Bounce(r.box, d.claim.key))
    case EmailOther => stored
  }

  lemma FreshMailIsNext(w: World, d: Sending, r: Rows, e: Email)
    requires Sent(w, d, r) && e.providerId == d.id && forall x :: x in r.emails ==> x.svix != e.svix
    ensures Next(w, d, r, Mail(e)) == FreshMail(w, d, r, e)
  {
    FindEmailFacts(r.emails, e);
    OnlyHolder(w, d, r);
    assert O.NoticeInv(r.box.notices[d.claim.key], r.box.nextToken);
  }

  lemma DeliveryAfterFresh(w: World, d: Sending, r: Rows, e: Email)
    requires Sent(w, d, r) && e.providerId == d.id && e !in r.emails && e.kind == EmailDelivered
    ensures var r' := FreshMail(w, d, r, e); Sent(w, d, r') && SameEvidence(r, r') && MailOutcome(d, r, e, r')
  {
    var stored := r.(emails := r.emails + [e]);
    EmailKeeps(w, r, e);
    if r.fulfillment == Delivered { ApplyAgainStored(w, d, r, stored, e); }
    else { ApplyDelivers(w, d, stored, e); }
  }

  lemma OtherAfterFresh(w: World, d: Sending, r: Rows, e: Email)
    requires Sent(w, d, r) && e.providerId == d.id && e !in r.emails && e.kind != EmailDelivered
    ensures var r' := FreshMail(w, d, r, e); Sent(w, d, r') && SameEvidence(r, r') && MailOutcome(d, r, e, r')
  {
    assert O.NoticeInv(r.box.notices[d.claim.key], r.box.nextToken);
    StoredIsSent(w, d, r, e);
    if e.kind == EmailBad { BounceSent(w, d, r.(emails := r.emails + [e])); }
  }

  lemma MailAfterFresh(w: World, d: Sending, r: Rows, e: Email)
    requires Sent(w, d, r) && e.providerId == d.id && e !in r.emails
    requires forall x :: x in r.emails && x.svix == e.svix ==> x == e
    ensures var r' := Next(w, d, r, Mail(e)); Sent(w, d, r') && SameEvidence(r, r') && MailOutcome(d, r, e, r')
  {
    FreshMailIsNext(w, d, r, e);
    if e.kind == EmailDelivered { DeliveryAfterFresh(w, d, r, e); } else { OtherAfterFresh(w, d, r, e); }
  }

  lemma ApplyAgainStored(w: World, d: Sending, r: Rows, stored: Rows, e: Email)
    requires Sent(w, d, r) && r.fulfillment == Delivered && stored == r.(emails := stored.emails) && Inv(w, stored)
    ensures Sent(w, d, stored) && ApplyDelivered(w, stored, d.claim.key, e) == (stored, false, false)
  {
  }

  lemma BounceSent(w: World, d: Sending, r: Rows)
    requires Sent(w, d, r)
    ensures Sent(w, d, r.(box := O.Bounce(r.box, d.claim.key)))
  {
    BounceKeeps(w, r, d.claim.key);
  }

  lemma MailAfter(w: World, d: Sending, r: Rows, e: Email)
    requires Sent(w, d, r) && e.providerId == d.id
    requires forall x :: x in r.emails && x.svix == e.svix ==> x == e
    ensures var r' := Next(w, d, r, Mail(e)); Sent(w, d, r') && SameEvidence(r, r') && MailOutcome(d, r, e, r')
  {
    if e in r.emails { MailAfterReplay(w, d, r, e); } else { MailAfterFresh(w, d, r, e); }
  }

  // ---------------------------------------------------------------- runs

  ghost predicate AnyDelivery(steps: seq<Step>) {
    exists s :: s in steps && s.Mail? && s.email.kind == EmailDelivered
  }

  lemma GenuineRest(emails: seq<Email>, steps: seq<Step>, id: string, emails': seq<Email>)
    requires Genuine(emails, steps, id) && steps != []
    requires emails' == emails || (steps[0].Mail? && emails' == Kept(emails, steps[0].email))
    ensures Genuine(emails', steps[1..], id)
  {
    forall s | s in steps[1..] ensures s in steps {}
    assert steps[0] in steps;
  }

  lemma AnyDeliveryRest(steps: seq<Step>)
    requires steps != []
    ensures AnyDelivery(steps) <==> (steps[0].Mail? && steps[0].email.kind == EmailDelivered) || AnyDelivery(steps[1..])
  {
    assert steps == [steps[0]] + steps[1..];
  }

  /** From acceptance on: delivered exactly when it already was or a delivery event comes, with at most one move. */
  lemma {:induction false} RunSent(w: World, d: Sending, r: Rows, steps: seq<Step>)
    requires Sent(w, d, r) && Genuine(r.emails, steps, d.id)
    ensures var r' := Run(w, d, r, steps);
            && Sent(w, d, r') && SameEvidence(r, r')
            && (r'.fulfillment == Delivered <==> r.fulfillment == Delivered || AnyDelivery(steps))
    ensures Moves(w, d, r, steps) == if r.fulfillment != Delivered && AnyDelivery(steps) then 1 else 0
    decreases |steps|
  {
    if steps != [] {
      AnyDeliveryRest(steps);
      assert steps[0] in steps;
      var r1 := Next(w, d, r, steps[0]);
      if steps[0].Accept? { AcceptAgain(w, d, r); } else { MailAfter(w, d, r, steps[0].email); }
      GenuineRest(r.emails, steps, d.id, r1.emails);
      RunSent(w, d, r1, steps[1..]);
    }
  }

  lemma HasDeliveryKept(emails: seq<Email>, e: Email, id: string)
    requires e.providerId == id
    ensures HasDelivery(Kept(emails, e), Some(id)) <==> HasDelivery(emails, Some(id)) || e.kind == EmailDelivered
  {
    if HasDelivery(emails, Some(id)) {
      var x :| x in emails && x.kind == EmailDelivered && Some(x.providerId) == Some(id);
      assert x in Kept(emails, e);
    }
    assert e in Kept(emails, e);
  }

  /**
   Every interleaving that contains the acceptance ends with notice and order delivered together exactly when a
   delivery event is among the webhooks, stored before or still to come, and then the order moved exactly once.
   */
  lemma {:induction false} DeliveryIsConfluent(w: World, d: Sending, r: Rows, steps: seq<Step>)
    requires Unsent(w, d, r) && Genuine(r.emails, steps, d.id) && Accept in steps
    ensures var r' := Run(w, d, r, steps);
            var delivered := HasDelivery(r.emails, Some(d.id)) || AnyDelivery(steps);
            && Sent(w, d, r') && SameEvidence(r, r')
            && (r'.fulfillment == if delivered then Delivered else BitcoinVerified)
            && (r'.box.notices[d.claim.key].row.state == O.Delivered <==> delivered)
            && Moves(w, d, r, steps) == if delivered then 1 else 0
    decreases |steps|
  {
    AnyDeliveryRest(steps);
    assert steps[0] in steps;
    match steps[0]
    case Accept =>
      var r1 := Next(w, d, r, Accept);
      AcceptFirst(w, d, r);
      GenuineRest(r.emails, steps, d.id, r1.emails);
      RunSent(w, d, r1, steps[1..]);
    case Mail(e) =>
      var r1 := Next(w, d, r, Mail(e));
      MailBefore(w, d, r, e);
      HasDeliveryKept(r.emails, e, d.id);
      GenuineRest(r.emails, steps, d.id, r1.emails);
      assert Accept in steps[1..];
      DeliveryIsConfluent(w, d, r1, steps[1..]);
  }

  // ---------------------------------------------------------------- without a delivery event

  /** The k-th step is a bounce, failure or complaint that is neither stored at the start nor a replay. */
  predicate FreshBad(emails: seq<Email>, steps: seq<Step>, k: nat)
    requires k < |steps|
  {
    steps[k].Mail? && steps[k].email.kind == EmailBad && steps[k].email !in emails && steps[k] !in steps[..k]
  }

  /** Some such event arrives. */
  predicate BadComes(emails: seq<Email>,
                     steps: seq<Step>) { exists k: nat :: k < |steps| && FreshBad(emails, steps, k) }

  /** Some such event arrives when the acceptance has been recorded. */
  predicate BadAfterAccept(emails: seq<Email>, steps: seq<Step>) {
    exists k: nat :: k < |steps| && FreshBad(emails, steps, k) && Accept in steps[..k]
  }

  lemma FreshBadLater(emails: seq<Email>, steps: seq<Step>, k: nat)
    requires 0 < k < |steps|
    ensures steps[0].Accept? ==> (FreshBad(emails, steps, k) <==> FreshBad(emails, steps[1..], k - 1))
    ensures steps[0].Mail? ==>
              (FreshBad(emails, steps, k) <==> FreshBad(Kept(emails, steps[0].email), steps[1..], k - 1))
    ensures Accept in steps[..k] <==> steps[0].Accept? || Accept in steps[1..][..k - 1]
  {
    assert steps[..k] == [steps[0]] + steps[1..][..k - 1];
    if steps[0].Mail? {
      assert forall x :: x in Kept(emails, steps[0].email) <==> x in emails || x == steps[0].email;
    }
  }

  /** Step by step: what the first step contributes. */
  lemma BadSplits(emails: seq<Email>, steps: seq<Step>)
    requires steps != []
    ensures var (s, rest) := (steps[0], steps[1..]);
            && (s.Accept? ==> (BadComes(emails, steps) <==> BadComes(emails, rest)))
            && (s.Mail? ==> (BadComes(emails, steps) <==>
                  (s.email.kind == EmailBad && s.email !in emails) || BadComes(Kept(emails, s.email), rest)))
            && (s.Accept? ==> (BadAfterAccept(emails, steps) <==> BadComes(emails, rest)))
            && (s.Mail? ==> (BadAfterAccept(emails, steps) <==> BadAfterAccept(Kept(emails, s.email), rest)))
  {
    var rest := steps[1..];
    var kept := if steps[0].Mail? then Kept(emails, steps[0].email) else emails;
    assert FreshBad(emails, steps, 0) <==>
             steps[0].Mail? && steps[0].email.kind == EmailBad && steps[0].email !in emails;
    forall k: nat | 0 < k < |steps|
      ensures FreshBad(emails, steps, k) <==> FreshBad(kept, rest, k - 1)
      ensures Accept in steps[..k] <==> steps[0].Accept? || Accept in rest[..k - 1]
    {
      FreshBadLater(emails, steps, k);
    }
    forall k: nat | k < |rest|
      ensures FreshBad(kept, rest, k) <==> FreshBad(emails, steps, k + 1)
      ensures Accept in steps[..k + 1] <==> steps[0].Accept? || Accept in rest[..k]
    {
      FreshBadLater(emails, steps, k + 1);
    }
  }

  /** From acceptance on, without a delivery: failed exactly when it already was or a fresh bad event comes. */
  lemma {:induction false} SentEndsAs(w: World, d: Sending, r: Rows, steps: seq<Step>)
    requires Sent(w, d, r) && Genuine(r.emails, steps, d.id)
    requires r.fulfillment != Delivered && !AnyDelivery(steps)
    ensures NoticeState(Run(w, d, r, steps), d)
         == if BadComes(r.emails, steps) then Some(O.Failed) else NoticeState(r, d)
    decreases |steps|
  {
    if steps != [] {
      AnyDeliveryRest(steps);
      BadSplits(r.emails, steps);
      assert steps[0] in steps;
      var r1 := Next(w, d, r, steps[0]);
      if steps[0].Accept? { AcceptAgain(w, d, r); } else { MailAfter(w, d, r, steps[0].email); }
      GenuineRest(r.emails, steps, d.id, r1.emails);
      SentEndsAs(w, d, r1, steps[1..]);
    }
  }

  lemma {:induction false} UndeliveredEndsAs(w: World, d: Sending, r: Rows, steps: seq<Step>)
    requires Unsent(w, d, r) && Genuine(r.emails, steps, d.id) && Accept in steps
    requires !HasDelivery(r.emails, Some(d.id)) && !AnyDelivery(steps)
    ensures NoticeState(Run(w, d, r, steps), d)
         == Some(if BadAfterAccept(r.emails, steps) then O.Failed else O.Accepted)
    decreases |steps|
  {
    AnyDeliveryRest(steps);
    BadSplits(r.emails, steps);
    assert steps[0] in steps;
    var r1 := Next(w, d, r, steps[0]);
    match steps[0]
    case Accept =>
      AcceptFirst(w, d, r);
      GenuineRest(r.emails, steps, d.id, r1.emails);
      SentEndsAs(w, d, r1, steps[1..]);
    case Mail(e) =>
      MailBefore(w, d, r, e);
      HasDeliveryKept(r.emails, e, d.id);
      GenuineRest(r.emails, steps, d.id, r1.emails);
      assert Accept in steps[1..];
      UndeliveredEndsAs(w, d, r1, steps[1..]);
  }

  /**
   How the notice ends, for every interleaving: delivered exactly when a delivery event is among the webhooks, and
   otherwise failed exactly when a bad event that is no replay arrives after the acceptance.
   */
  lemma NoticeEndsAs(w: World, d: Sending, r: Rows, steps: seq<Step>)
    requires Unsent(w, d, r) && Genuine(r.emails, steps, d.id) && Accept in steps
    ensures NoticeState(Run(w, d, r, steps), d)
         == Some(if HasDelivery(r.emails, Some(d.id)) || AnyDelivery(steps) then O.Delivered
                 else if BadAfterAccept(r.emails, steps) then O.Failed
                 else O.Accepted)
  {
    DeliveryIsConfluent(w, d, r, steps);
    if !HasDelivery(r.emails, Some(d.id)) && !AnyDelivery(steps) { UndeliveredEndsAs(w, d, r, steps); }
  }

  /**
   Without a delivery event the order of arrival shows: a bounce that beats the acceptance is only stored, and the
   notice stays `accepted`, while the same bounce after the acceptance fails it.
   */
  lemma BounceIsNotConfluent(w: World, d: Sending, r: Rows, e: Email)
    requires Unsent(w, d, r) && e.providerId == d.id && e.kind == EmailBad
    requires !HasDelivery(r.emails, Some(d.id)) && forall x :: x in r.emails ==> x.svix != e.svix
    ensures NoticeState(Run(w, d, r, [Mail(e), Accept]), d) == Some(O.Accepted)
    ensures NoticeState(Run(w, d, r, [Accept, Mail(e)]), d) == Some(O.Failed)
  {
    BounceThenAccept(w, d, r, e);
    AcceptThenBounce(w, d, r, e);
    RunTwo(w, d, r, Mail(e), Accept);
    RunTwo(w, d, r, Accept, Mail(e));
  }

  lemma RunTwo(w: World, d: Sending, r: Rows, s: Step, t: Step)
    ensures Run(w, d, r, [s, t]) == Next(w, d, Next(w, d, r, s), t)
  {
    assert [s, t][1..] == [t] && [t][1..] == [];
    var r1 := Next(w, d, r, s);
    assert Run(w, d, r1, [t]) == Run(w, d, Next(w, d, r1, t), []);
  }

  lemma BounceThenAccept(w: World, d: Sending, r: Rows, e: Email)
    requires Unsent(w, d, r) && e.providerId == d.id && e.kind == EmailBad
    requires !HasDelivery(r.emails, Some(d.id)) && forall x :: x in r.emails ==> x.svix != e.svix
    ensures NoticeState(Next(w, d, Next(w, d, r, Mail(e)), Accept), d) == Some(O.Accepted)
  {
    MailBefore(w, d, r, e);
    HasDeliveryKept(r.emails, e, d.id);
    AcceptFirst(w, d, Next(w, d, r, Mail(e)));
  }

  lemma AcceptThenBounce(w: World, d: Sending, r: Rows, e: Email)
    requires Unsent(w, d, r) && e.providerId == d.id && e.kind == EmailBad
    requires !HasDelivery(r.emails, Some(d.id)) && forall x :: x in r.emails ==> x.svix != e.svix
    ensures NoticeState(Next(w, d, Next(w, d, r, Accept), Mail(e)), d) == Some(O.Failed)
  {
    AcceptFirst(w, d, r);
    MailAfter(w, d, Next(w, d, r, Accept), e);
  }
}
