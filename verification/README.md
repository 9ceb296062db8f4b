# Verification of the managed timestamp service and the certificate package

Spacerocks COA Studio builds signed certificate packages in the browser and sells a managed Bitcoin timestamp for
them. This project models the two parts whose correctness is hard to see from the code, in Dafny 4.11, and proves what
they promise. `dafny verify dfyconfig.toml` checks everything.

**The timestamp service** is a set of protocols over database rows, each written as short locked transactions. A
transaction is one step of a state machine; tables are maps or sequences; `now` is an input. Every store is given
twice: as functions on table values, about which invariants over all runs are proved, and as classes whose methods
write the fields in place and are proved equal to those functions. The `Outcomes` modules say, apart from both, when
exactly each transaction succeeds and what it then writes and answers.

- `Orders`, `Payments`, `PaymentOutcomes`, `PaymentStore`: the two transition relations and the Stripe webhook.
- `Jobs`, `JobInvariant`, `JobProperties`, `JobOutcomes`, `JobStore`: the job lease protocol, task dispatch rows,
  operator replay and stale recovery.
- `Lifecycle`, `LifecycleProperties`, `LifecycleOutcomes`: orders, jobs, webhooks and any number of worker runs
  (claim, handler, heartbeat, terminal handler, finish) interleaved step by step.
- `Outbox`, `OutboxProperties`, `OutboxOutcomes`, `OutboxStore`: the notification outbox with its tokens, attempts and
  horizon.
- `Evidence`, `EvidenceInvariant`, `EvidenceOutcomes`, `EvidenceStore`: one order's proofs, verifications,
  observations, bundles, state events, notices and delivery webhooks, and the invariant that ties them to the order's
  state.
- `FulfillmentHandlers`, `FulfillmentInvariant`: the four handlers as threads that can be cut after every repository
  call, rerun and overlapped. `FulfillmentRecovery` and `HandoverRecovery` say how a rerun ends for every outside
  answer; `HandlerMethods` is the handlers' own imperative form.
- `Delivery`, `DeliveryConfluence`, `DeliveryOutcomes`: acceptance and delivery webhooks in any order. `Status`,
  `StatusRuns`: the status endpoint, the browser's checks of its answer, and both over runs.
- `Checkout`, `CheckoutProperties`, `CheckoutOutcomes`, `CheckoutStore`: idempotency keys, leases with grace, and
  status tokens.

**Bitcoin and proof evidence**: `LittleEndian`, `CompactTarget` and `BlockHeader` (arithmetic and the 80-byte layout),
`BitcoinVerify`, `BitcoinAgreement` and `BitcoinFailures` (the Esplora and Bitcoin Core verifiers: sound, when they
agree, and what each failure means for arbitrary answers), `TimestampTree` and `TimestampMerge` (validation of
timestamp trees, stamping and upgrading), `OrderReference` and `IdempotencyKey` (text codecs; sections 3.5 and 5 of
RFC 4648).

**The certificate package**: `Zip` (central-directory parser; sections 4.3.12 and 4.3.16 of the PKWARE APPNOTE),
`Photo` (the browser's and the bundled Python check), `ManifestVersion`, `FileNames`, `Paths`, `Package`,
`PackageRoundTrip`, `PackageBuilder`, `CertificatePackage` and `PackageSoundness` (builder and verifier as a round
trip, what a manifest of each version binds, and what exactly passes).

Hashes, signatures, JSON, image decoding, calendars, Bitcoin nodes and the payment provider are parameters; the laws
used about them are named predicates (`Lawful`, `SchemaLaw`, `Inputs`, `HonestProviders`, `HonestNode`, ...).

## What the code does not do

Seven promises one might expect fail; each has its exact condition and a concrete case as a lemma.

- A job leased on its last attempt whose worker dies stays leased for good (`JobProperties.ClaimableExactly`,
  `LastAttemptStaysLeased`, `LastAttemptReachable`).
- Without a delivery event, a bounce and the acceptance do not commute (`DeliveryConfluence.NoticeEndsAs`,
  `BounceIsNotConfluent`).
- An upgrade that finishes after another one hides the status of a verified order (`Status.AnswersExactly`,
  `StatusRuns.AnsweredWithoutLateVersion`, `HiddenStatusReachable`).
- A photograph or logo whose safe name is `manifest.json` makes a package its own verifier refuses
  (`CertificatePackage.BuildCertificatePackage`, `PackageBuilder.ManifestPhotoClaims`).
- A photograph whose size is written `560.0` passes the schema and the browser, and fails the bundled Python check
  (`Photo.ChecksAgree`, `FractionsDivide`).
- A package whose manifest version is unknown passes with files that it does not list
  (`CertificatePackage.PathsBoundExactly`, `UnknownVersionTakesMore`, `ManifestVersion.EarlyIsUnknown`).
- The two Bitcoin verifiers may report differently on a proof with a wrong message or a height above the tip
  (`BitcoinAgreement.VerifiersAgree`, `WrongRootDiffers`).

## Model

| member | source | states |
|---|---|---|
| Orders.PaymentChainBound | timestamp-service/app/domain/order.py:32-103 | any chain of legal payment changes has at most four links and never returns to a state it left |
| Orders.FulfillmentForward | timestamp-service/app/domain/order.py:58-113 | an accepted fulfillment change keeps the state or moves to a strictly later stage |
| JobInvariant.NextKeeps | timestamp-service/app/db/repositories.py:301-480 | every job, dispatch and operator transaction keeps the lease invariant (leased iff owner and lease time; attempts exactly 1..attempt_count; dispatch rows exactly 1..generation) and takes no history back: terminal rows never change, a finished attempt never changes |
| JobInvariant.RunKeeps | timestamp-service/app/db/repositories.py:275-480 | the same over every run from a good table |
| JobInvariant.ClaimSpecificCases | timestamp-service/app/db/repositories.py:346-387 | a specific claim either leases an open job of exactly that generation with attempts left, or changes nothing |
| JobProperties.FinishExactlyForHolder | timestamp-service/app/db/repositories.py:440-480 | although `finish` never looks at the state, it succeeds exactly for the holder of the current lease (with the retry time and generation room a retry needs) |
| JobProperties.HeartbeatExactlyForHolder | timestamp-service/app/db/repositories.py:426-438 | a heartbeat answers true exactly for the holder, and otherwise changes nothing |
| JobProperties.SupersededForever | timestamp-service/app/db/repositories.py:426-480 | a lost lease stays lost: in every continuation its heartbeat and finish change nothing |
| JobProperties.FinishedAtMostOnce | timestamp-service/app/db/repositories.py:440-480 | after a finish the same claim can never finish again, whatever happens in between |
| JobProperties.GrantSupersedes | timestamp-service/app/db/repositories.py:339-424 | a grant, general or specific, is held under the next attempt number and supersedes every earlier claim in every continuation |
| JobProperties.ActiveLeaseExcludes | timestamp-service/app/db/repositories.py:287-424 | while a lease runs, neither claim, specific claim nor stale recovery touches the job |
| JobProperties.BoundedWork | timestamp-service/app/worker/operator.py:38-65 | over every run leases granted equal the growth of attempt_count and are bounded by the initial budget plus ten per committed replay |
| JobProperties.ClaimableExactly | timestamp-service/app/db/repositories.py:346-387 | an unfinished job can be claimed under its generation exactly from one computable instant on, unless it is leased on its last attempt |
| JobProperties.LastAttemptStaysLeased | timestamp-service/app/db/repositories.py:287-299 | the exception is real: such a job, if its holder never finishes, stays leased and is never granted again, over every run with claims, replays and recoveries |
| JobProperties.LastAttemptReachable | timestamp-service/app/db/repositories.py:389-424 | and reachable: enqueue with one attempt and one claim lead there |
| JobProperties.OldGenerationIsNoOp | timestamp-service/app/tasks/dispatch.py:137-177 | a delivery for an older generation is a no-op now and in every continuation |
| JobOutcomes.ClaimsExactly | timestamp-service/app/db/repositories.py:389-424 | a general claim takes exactly an open, due, unleased job with an attempt left, and then hands out the next attempt |
| JobOutcomes.ClaimsTaskExactly | timestamp-service/app/db/repositories.py:346-387 | the reply to every task: too early is to be retried, older or finished or exhausted is done with, and otherwise the lease is granted |
| JobOutcomes.FinishesExactly | timestamp-service/app/db/repositories.py:440-480 | how every finish ends: only for the holder; a retry opens the next generation at its time, is a dead letter without an attempt left, and is refused without a time or a generation; every other outcome is final |
| JobOutcomes.ReplaysExactly | timestamp-service/app/worker/operator.py:38-65 | an operator replays exactly a job that waits for a retry, at once and with at least ten more attempts; the other states have their refusals |
| JobOutcomes.RecoversExactly | timestamp-service/app/tasks/dispatch.py:191-253 | recovery dispatches again exactly an open, unleased job whose accepted task is long overdue, and closes an expired lease as a retry |
| JobStore.SqlJobClaimStore.EnqueueOnce | timestamp-service/app/db/repositories.py:301-337 | in-place enqueue with its first dispatch row; an existing key changes nothing |
| JobStore.SqlJobClaimStore.ClaimSpecificJob | timestamp-service/app/db/repositories.py:346-387 | the in-place specific claim, all replies included, equals the specified transaction |
| JobStore.SqlJobClaimStore.ClaimNext | timestamp-service/app/db/repositories.py:339-344 | a general claim leases some claimable row, and answers nothing only when no row is claimable |
| JobStore.SqlJobClaimStore.HeartbeatLease | timestamp-service/app/db/repositories.py:426-438 | the in-place heartbeat equals the specified transaction |
| JobStore.SqlJobClaimStore.FinishJob | timestamp-service/app/db/repositories.py:440-480 | the in-place finish, its dead-letter fallback, retry generation and both errors equal the specified transaction |
| JobStore.SqlJobClaimStore.ReplayJob | timestamp-service/app/worker/operator.py:38-65 | the in-place operator replay and its refusals equal the specified transaction |
| JobStore.SqlJobClaimStore.RecordTask | timestamp-service/app/tasks/dispatch.py:137-177 | what a dispatch records about the one task row it looked at |
| JobStore.SqlJobClaimStore.RecoverStale | timestamp-service/app/tasks/dispatch.py:191-253 | the recovery loop equals recovering the selected jobs one by one; it selects only stale jobs, all of them when under its limit, and none is stale afterwards |
| LifecycleProperties.NextKeeps | timestamp-service/app/worker/runner.py:86-179 | every step of orders, jobs and worker runs together keeps the invariant, and every order moves only along the two transition relations, the direct write to `queued` included |
| LifecycleProperties.RunKeeps | timestamp-service/app/worker/composition.py:60-141 | the invariant holds over every run, with successor jobs enqueued by the handlers |
| LifecycleProperties.FallbackUnreachable | timestamp-service/app/db/repositories.py:460-465 | the store never turns a worker's outcome into a dead letter: a finish that succeeds records exactly the worker's outcome |
| LifecycleProperties.FailedJobsAreReviewed | timestamp-service/app/worker/runner.py:109-170 | a job in manual review or dead letter implies its order is in manual review |
| LifecycleProperties.PaidBeforeWork | timestamp-service/app/payments/service.py:384-474 | over every sequence of events, an order outside `awaiting_payment` was charged and has its stamp job; a paid one is outside; one still waiting has no job; at most one stamp job exists |
| LifecycleProperties.OrderHistory | timestamp-service/app/payments/service.py:539-565 | over every run payment changes at most four times and becomes `paid` at most once, fulfillment only moves forward, and manual review is never left |
| LifecycleProperties.LostBeforePaymentNeverWorks | timestamp-service/app/payments/service.py:442-466 | an order refunded, disputed, failed or expired before payment never gets a job, whatever follows |
| LifecycleProperties.ReviewKeeps | timestamp-service/app/fulfillment/terminal.py:13-18 | the terminal handler's keyed transition keeps the invariant, so its event key is only recorded for an order in manual review |
| LifecycleOutcomes.RunEndsExactly | timestamp-service/app/worker/runner.py:101-179 | how a worker run that meets no other step ends, for every end of its handler: a lost lease leaves no trace; otherwise the job is complete, in review, a dead letter or due again, and the order is in manual review exactly when the handler says so or has no attempt left |
| LifecycleOutcomes.UnknownKindEnds | timestamp-service/app/worker/runner.py:86-93 | a run whose job is of no known kind ends with its order in manual review, and with its job there too if it still holds the lease; no other job ends this way |
| Payments.PaidIsAuthoritative | timestamp-service/app/payments/service.py:489-565 | payment becomes `paid` only on the provider's own paid and complete session for this order, price, amount and intent |
| Payments.RefundIsFull | timestamp-service/app/payments/service.py:539-576 | payment becomes `refunded` exactly for an authoritative full refund in a state that may be refunded |
| PaymentOutcomes.WebhookExactly | timestamp-service/app/payments/service.py:384-475 | what the webhook makes of every event: raised for the other mode, a duplicate exactly for the same delivery, recorded as refused when the order is not found or the event does not fit its session, raised when another order has the payment, and otherwise recorded and applied |
| PaymentOutcomes.AppliesExactly | timestamp-service/app/payments/service.py:539-576 | for each payment state the exact events and earlier states from which an accepted event leads there; every other event leaves the payment alone |
| PaymentOutcomes.PaymentQueues | timestamp-service/app/payments/service.py:442-466 | a new, fitting event of an open or processing order whose session is paid always leaves the order paid and queued, with its stamp job, and is recorded as accepted |
| PaymentOutcomes.OnlyPaymentsPay | timestamp-service/app/payments/service.py:489-565 | and an event makes an order paid only in that case |
| PaymentStore.WebhookService.ProcessEvent | timestamp-service/app/payments/service.py:384-475 | the in-place webhook, duplicates, refusals and recorded event included, equals the specified transaction |
| PaymentStore.WebhookService.ApplyBound | timestamp-service/app/payments/service.py:442-475 | the in-place writes to a bound order: payment, the direct write to `queued`, the stamp job |
| CheckoutProperties.NextKeeps | timestamp-service/app/payments/service.py:137-375 | every reserve, provider answer, finalize, resume, replay and rotation keeps the checkout invariant and takes nothing back |
| CheckoutProperties.RunKeeps | timestamp-service/app/payments/service.py:97-120 | the same over every run |
| CheckoutProperties.OneOrderPerKey | timestamp-service/app/payments/service.py:137-218 | a key keeps its one order through every run, and no other key has it |
| CheckoutProperties.AnswersAgree | timestamp-service/app/payments/service.py:242-375 | at most one finalize ever succeeds for a key, and every successful answer for a key carries the same order reference and URL and the states of a fresh checkout |
| CheckoutProperties.FinalizedUnderLease | timestamp-service/app/payments/service.py:242-287 | a finalize succeeds only for the newest plan of its key, under a lease that has not run out |
| CheckoutProperties.PlansAgree | timestamp-service/app/payments/service.py:318-338 | all plans of a key differ in nothing but the lease, so the provider is always asked the same question |
| CheckoutProperties.OneLiveToken | timestamp-service/app/db/repositories.py:55-76 | no order ever has two unrevoked tokens, with replays and rotations in any order |
| CheckoutProperties.GraceProtects | timestamp-service/app/payments/service.py:289-313 | until the lease or grace time is over, a repeated request changes nothing and is refused |
| CheckoutProperties.ReplayAnswers | timestamp-service/app/payments/service.py:340-375 | afterwards a repeated request is answered with the stored body and a new token, the only live one |
| CheckoutProperties.RotationSpends | timestamp-service/app/api/routes.py:227-240 | a rotated token never rotates again |
| CheckoutOutcomes.FinalizesExactly | timestamp-service/app/payments/service.py:242-287 | a finalize of a plan that was handed out succeeds exactly for a safe URL, the newest plan under a running lease, the order's mode, and a session no other order carries, a first session included; it then answers the plan's order with the URL, stores session and answer, and its token is the only one that opens the status, until its time is over |
| CheckoutOutcomes.ReservesExactly | timestamp-service/app/payments/service.py:137-375 | how every request ends: a new key gets its order and plan; a known one is refused for another request or mode or while a lease or grace runs, gets the same plan under the next lease, or its stored answer with a token that replaces all others |
| CheckoutOutcomes.RotatesExactly | timestamp-service/app/api/routes.py:227-240 | a rotation succeeds exactly for the live token before its time is over, and its replacement is then the only token |
| CheckoutOutcomes.FirstCheckout | timestamp-service/app/payments/service.py:137-287 | from every reachable state a new key with a safe answer within the lease is answered, and the answer logged |
| CheckoutOutcomes.FirstCustomer | timestamp-service/app/payments/service.py:137-287 | so a run from the empty tables logs a finalized answer |
| CheckoutStore.CheckoutService.IssueToken | timestamp-service/app/db/repositories.py:55-76 | the revoking loop, the version count and the new row equal the specified token table |
| CheckoutStore.CheckoutService.ReserveCheckout | timestamp-service/app/payments/service.py:137-218 | the in-place reserve equals the specified transaction |
| CheckoutStore.CheckoutService.ResumeCheckout | timestamp-service/app/payments/service.py:289-313 | the in-place resume equals the specified transaction |
| CheckoutStore.CheckoutService.FinalizeCheckout | timestamp-service/app/payments/service.py:242-287 | the in-place finalize equals the specified transaction |
| CheckoutStore.CheckoutService.RotateStatusToken | timestamp-service/app/api/routes.py:227-240 | the in-place rotation equals the specified transaction |
| OutboxProperties.NextKeeps | timestamp-service/app/db/notification_adapters.py:200-427 | every outbox transaction keeps the lease invariant and only lets notices grow |
| OutboxProperties.RunKeeps | timestamp-service/app/db/notification_adapters.py:116-427 | the same over every run |
| OutboxProperties.LeasedExactlyWithOneOpenAttempt | timestamp-service/app/db/notification_adapters.py:958-990 | a row is leased exactly when one attempt is open, numbered attempt_count and holding the row's token |
| OutboxProperties.ActiveOrReclaimable | timestamp-service/app/db/notification_adapters.py:200-284 | at every instant a leased row either answers to a holder or can be reclaimed or expired, never both |
| OutboxProperties.HolderRecords | timestamp-service/app/db/notification_adapters.py:324-385 | the holder of an active lease can always record a failure, and a retry exactly when its time is later |
| OutboxProperties.AcceptedForever | timestamp-service/app/db/notification_adapters.py:286-322 | once a provider id is recorded the row is never claimed, expired or leased again, in any run |
| OutboxProperties.TriesAreBounded | timestamp-service/app/db/notification_adapters.py:200-284 | over every run a notice is tried at most max_attempts times, only before its horizon, and accepted at most once |
| OutboxProperties.StaleForever | timestamp-service/app/db/notification_adapters.py:958-990 | a claim that lost its lease is refused by every later record, in any run |
| OutboxProperties.ClaimSupersedes | timestamp-service/app/db/notification_adapters.py:200-284 | a granted claim is active, before the horizon, for a row without provider id, and fences off every earlier claim |
| OutboxOutcomes.ClaimsExactly | timestamp-service/app/db/notification_adapters.py:200-284 | a proper claim gives up exactly the selected notices that wait, are spent and were never accepted, and leases exactly a picked one that waits, is due, is not spent and was never accepted |
| OutboxOutcomes.AcceptsExactly | timestamp-service/app/db/notification_adapters.py:286-313 | an acceptance is recorded exactly for the holder, with status 200 and a new proper id; the refusals in their order |
| OutboxOutcomes.RetriesExactly | timestamp-service/app/db/notification_adapters.py:324-358 | a later retry of the holder waits again exactly while attempts are left and its time is before the horizon, and is a dead letter otherwise |
| OutboxStore.SqlNotificationOutbox.Claim | timestamp-service/app/db/notification_adapters.py:200-284 | the in-place claim expires first and then leases some claimable row; it answers nothing only when none is claimable |
| OutboxStore.SqlNotificationOutbox.ExpireUnclaimable | timestamp-service/app/db/notification_adapters.py:387-427 | the expiry loop equals expiring the selected rows, leaves none expirable when under its limit |
| OutboxStore.SqlNotificationOutbox.AcceptRecord | timestamp-service/app/db/notification_adapters.py:286-313 | the outbox half of an acceptance and its refusals |
| OutboxStore.SqlNotificationOutbox.RetryRecord | timestamp-service/app/db/notification_adapters.py:324-358 | a retry, or a dead letter when attempts or horizon are used up |
| OutboxStore.SqlNotificationOutbox.FailRecord | timestamp-service/app/db/notification_adapters.py:360-385 | a terminal failure of the held lease |
| EvidenceInvariant.AppendKeeps | timestamp-service/app/db/fulfillment_adapters.py:60-100 | an appended proof version keeps the evidence invariant and is the newest |
| EvidenceInvariant.PutVerifiedKeeps | timestamp-service/app/db/fulfillment_adapters.py:290-317 | a verification is written once and keeps the invariant |
| EvidenceInvariant.RecordOnceKeeps | timestamp-service/app/db/notification_adapters.py:48-108 | an observation is written once and keeps the invariant |
| EvidenceInvariant.PutBundleKeeps | timestamp-service/app/db/fulfillment_adapters.py:354-404 | a bundle is written once with its checksum |
| EvidenceInvariant.TransitionKeeps | timestamp-service/app/db/fulfillment_adapters.py:228-280 | a keyed transition keeps the invariant when its target's evidence is there |
| EvidenceInvariant.EnqueueKeeps | timestamp-service/app/db/notification_adapters.py:132-198 | an announced confirmation is bound to the newest observation of the newest proof |
| EvidenceInvariant.ApplyKeeps | timestamp-service/app/db/notification_adapters.py:520-585 | applying a delivery event keeps the invariant |
| EvidenceInvariant.AcceptKeeps | timestamp-service/app/db/notification_adapters.py:286-322 | an acceptance that finds an earlier delivery event keeps the invariant |
| EvidenceInvariant.WebhookKeeps | timestamp-service/app/db/notification_adapters.py:434-517 | a webhook, new or replayed, keeps the invariant |
| EvidenceInvariant.PaymentKeeps | timestamp-service/app/payments/service.py:442-466 | a payment change keeps it, the direct write to `queued` included |
| EvidenceInvariant.LatestIsLast | timestamp-service/app/db/fulfillment_adapters.py:209-216 | the newest proof is the last row |
| EvidenceInvariant.LatestObservationIsNewest | timestamp-service/app/db/notification_adapters.py:794-810 | the newest observation of a version is one that no other postdates |
| EvidenceOutcomes.AppendsExactly | timestamp-service/app/db/fulfillment_adapters.py:60-100 | a proof is appended exactly as the next version of this order's digest with a fitting calendar time and size, or repeats the newest; every other one is refused |
| EvidenceOutcomes.TransitionsExactly | timestamp-service/app/db/fulfillment_adapters.py:228-280 | a keyed transition commits exactly for a legal target, and again under its key; a key of another state, a contradicting time, or a pending order without one is refused |
| EvidenceOutcomes.VerifiesExactly | timestamp-service/app/db/fulfillment_adapters.py:290-317 | a verification of a stored version is written once, and may be repeated with the same block and time only |
| EvidenceOutcomes.ObservesExactly | timestamp-service/app/db/notification_adapters.py:48-108 | an observation is written exactly for the newest, verified version and its block, once under its key |
| EvidenceOutcomes.BundlesExactly | timestamp-service/app/db/fulfillment_adapters.py:354-404 | a bundle of a stored version is written once, and may be repeated with the same bytes only |
| EvidenceOutcomes.EnqueuesExactly | timestamp-service/app/db/notification_adapters.py:132-198 | only the newest count of the newest version is announced, from one or six confirmations on, and a notice is written once |
| EvidenceStore.SqlFulfillmentStore.MergeCalendarTime | timestamp-service/app/db/fulfillment_adapters.py:578-585 | the calendar time is set once and never replaced |
| EvidenceStore.SqlFulfillmentStore.AppendProof | timestamp-service/app/db/fulfillment_adapters.py:60-100 | the in-place append and its conflicts equal the specified one |
| EvidenceStore.SqlFulfillmentStore.TransitionFulfillmentOnce | timestamp-service/app/db/fulfillment_adapters.py:228-280 | the in-place keyed transition equals the specified one |
| EvidenceStore.SqlFulfillmentStore.PutVerifiedOnce | timestamp-service/app/db/fulfillment_adapters.py:290-317 | the in-place write of a verification equals the specified one |
| EvidenceStore.SqlFulfillmentStore.RecordObservationOnce | timestamp-service/app/db/notification_adapters.py:48-108 | the in-place write of an observation equals the specified one |
| EvidenceStore.SqlFulfillmentStore.PutBundleOnce | timestamp-service/app/db/fulfillment_adapters.py:354-404 | the in-place write of a bundle equals the specified one |
| EvidenceStore.SqlFulfillmentStore.EnqueueMessage | timestamp-service/app/db/notification_adapters.py:132-198 | the in-place enqueue equals the specified one |
| EvidenceStore.SqlFulfillmentStore.ApplyDeliveredEvent | timestamp-service/app/db/notification_adapters.py:520-585 | the in-place delivery equals the specified one |
| EvidenceStore.SqlFulfillmentStore.ProcessResendEvent | timestamp-service/app/db/notification_adapters.py:434-517 | the in-place webhook, replay conflicts included, equals the specified one |
| EvidenceStore.SqlFulfillmentStore.RecordAcceptance | timestamp-service/app/db/notification_adapters.py:286-322 | the in-place acceptance with its look back for a delivery event equals the specified one |
| FulfillmentInvariant.NextKeeps | timestamp-service/app/fulfillment/handlers.py:54-342 | one step of any interleaved handler thread, outside actor or crash keeps the invariant of rows and threads |
| FulfillmentInvariant.RunKeeps | timestamp-service/app/fulfillment/handlers.py:54-342 | the same over every run, and no evidence or progress is ever lost |
| FulfillmentInvariant.ThreadSurvives | timestamp-service/app/fulfillment/handlers.py:54-342 | what a thread relies on between two repository calls survives every other transaction and the passing of time |
| FulfillmentInvariant.StampKeeps | timestamp-service/app/fulfillment/handlers.py:54-141 | each step of the stamp handler |
| FulfillmentInvariant.UpgradeKeeps | timestamp-service/app/fulfillment/handlers.py:144-231 | each step of the upgrade handler |
| FulfillmentInvariant.ReverifyKeeps | timestamp-service/app/fulfillment/handlers.py:152-172 | each step of the reverification path |
| FulfillmentInvariant.DeliverKeeps | timestamp-service/app/fulfillment/handlers.py:234-288 | each step of the delivery handler |
| FulfillmentInvariant.ConfirmKeeps | timestamp-service/app/fulfillment/handlers.py:291-342 | each step of the confirmation handler |
| FulfillmentInvariant.EvidenceFollowsState | timestamp-service/app/fulfillment/handlers.py:59-230 | over every run: versions are exactly 1..n with the order's digest and calendar time; a pending or later order has version 1; a verified one an agreeing verification and observation; a delivered one also a checksum-valid bundle and an initial notice delivered on a stored event |
| FulfillmentInvariant.VerifiedAfterCalendar | timestamp-service/app/fulfillment/handlers.py:144-231 | every verification is of an existing version and no earlier than the calendar time, in every run |
| FulfillmentRecovery.StampRecovers | timestamp-service/app/fulfillment/handlers.py:59-141 | how a stamp that meets no other thread ends, from every reachable order, with the exact rows: a stored proof is replayed and done; an unpaid order, a wrong state, an invalid or oversized answer need review; an outage is retried later; a valid answer is stored as version 1 and the order is pending |
| FulfillmentRecovery.UpgradeRecovers | timestamp-service/app/fulfillment/handlers.py:152-231 | how an upgrade or reverification that meets no other thread ends, from every reachable order and for every outside answer, with the exact rows: after a usable calendar answer an unconfirmed proof is exactly not yet confirmed, with the order still pending and the new version kept; outages of calendars or verifier are retried later; invalid answers and evidence need review; a confirmation verifies the order unless it contradicts what is stored; a reverification that is lost or contradicts needs review |
| HandoverRecovery.DeliverRecovers | timestamp-service/app/fulfillment/handlers.py:244-288 | how a delivery that meets no other thread ends, from every reachable order and for every answer of the bundler, with the exact rows: bundle and initial notice are stored, whatever an earlier run left behind; a wrong state or a missing verification needs review; it waits while the bundler has not answered; conflicts, and numbers that do not fit their columns, raise |
| HandoverRecovery.ConfirmRecovers | timestamp-service/app/fulfillment/handlers.py:299-342 | how a confirmation that meets no other thread ends, from every reachable order and for every answer, with the exact rows: a lost, contradicting or decreased confirmation needs review; an outage is retried later; a fitting one is stored once, is not yet final below six confirmations, and from six on gives the final notice exactly when it is the newest count |
| HandlerMethods.Handlers.Stamp | timestamp-service/app/fulfillment/handlers.py:59-141 | the handler in its own imperative form computes exactly the steps of a stamp thread |
| HandlerMethods.Handlers.Upgrade | timestamp-service/app/fulfillment/handlers.py:152-231 | the same for the upgrade handler |
| HandlerMethods.Handlers.Deliver | timestamp-service/app/fulfillment/handlers.py:244-288 | the same for the delivery handler |
| HandlerMethods.Handlers.Confirm | timestamp-service/app/fulfillment/handlers.py:299-342 | the same for the confirmation handler |
| DeliveryConfluence.DeliveryIsConfluent | timestamp-service/app/db/notification_adapters.py:286-585 | every interleaving of the acceptance with delivered, bounced and other webhooks and their replays ends with notice and order delivered exactly when a delivery event is among them, before or after, and then the order moved exactly once |
| DeliveryConfluence.RunSent | timestamp-service/app/db/notification_adapters.py:434-585 | the same from acceptance on |
| DeliveryConfluence.NoticeEndsAs | timestamp-service/app/db/notification_adapters.py:286-585 | how the notice ends for every interleaving with the acceptance: delivered exactly when a delivery event is among the webhooks, otherwise failed exactly when a bad event that is no replay arrives after the acceptance, otherwise accepted |
| DeliveryConfluence.BounceIsNotConfluent | timestamp-service/app/db/notification_adapters.py:434-495 | the concrete pair of runs: the same bounce before the acceptance is only stored and the notice stays accepted, after it the notice fails |
| DeliveryOutcomes.WebhookExactly | timestamp-service/app/db/notification_adapters.py:434-585 | what every webhook does to rows that keep the invariant: another event under a known id is refused, a new one is stored, a delivery delivers exactly a notice whose version is newest, verified, observed often enough and bundled, and a new bad event fails an undelivered one |
| DeliveryOutcomes.EarliestIs | timestamp-service/app/db/notification_adapters.py:313-322 | the delivery event an acceptance finds is the one of the earliest time for its id, and of equal times the one stored first |
| DeliveryOutcomes.AcceptsExactly | timestamp-service/app/db/notification_adapters.py:286-322 | an acceptance records, and an earlier delivery event, the earliest there is, then delivers exactly a deliverable notice |
| Status.ClientAcceptsEveryStatus | src/lib/timestamp-service.ts:491-529 | for every reachable order, whatever status the server returns passes all of the browser's contradiction checks |
| Status.InvAccepts | timestamp-service/app/api/routes.py:158-223 | the same for any rows that keep the evidence invariant and the clock |
| Status.AnswersExactly | timestamp-service/app/api/routes.py:165-223 | with both services up the server answers exactly when the newest proof version has what the state promises |
| Status.ProjectsExactly | timestamp-service/app/api/routes.py:165-223 | and the answer carries the states of the order and calendar time, the newest version's own verification time, and whether that version has its bundle |
| Status.LateUpgradeHidesStatus | timestamp-service/app/api/routes.py:165-223 | a version appended after another was verified or delivered takes the answer away |
| StatusRuns.NewestAnswers | timestamp-service/app/api/routes.py:165-223 | when only the newest version was ever observed, the status is answered |
| StatusRuns.AnsweredWithoutLateVersion | timestamp-service/app/fulfillment/handlers.py:54-342 | so the status is answered at the end of every run in which no version is appended after the first observation |
| StatusRuns.HiddenStatusReachable | timestamp-service/app/fulfillment/handlers.py:144-231 | the failing case is reached from a fresh order: two upgrades overlap, and the one with other bytes appends them after the other has finished |
| StatusRuns.SendingReachable | timestamp-service/app/fulfillment/handlers.py:234-288 | an order whose initial notice is leased for sending is reached from a fresh one, so the delivery results have something to start from |
| CompactTarget.OverflowIsExact | timestamp-service/app/bitcoin/esplora.py:519-534 | the three-way test holds exactly when mantissa times 256^(exponent-3) does not fit 256 bits |
| CompactTarget.DecodesExactly | timestamp-service/app/bitcoin/esplora.py:519-534 | the decoded target is mantissa times 256^(exponent-3), rounded down, exactly for a non-negative word whose target is positive and within the network limit |
| CompactTarget.AcceptedRange | timestamp-service/app/bitcoin/esplora.py:519-534 | every accepted target is in 1..0xFFFF*2^208 |
| CompactTarget.CanonicalRoundTrip | timestamp-service/app/bitcoin/esplora.py:519-534 | re-encoding an accepted target canonically gives a word that decodes to the same target |
| BlockHeader.SlicesRecover | timestamp-service/app/bitcoin/esplora.py:503-516 | slicing a serialized header recovers merkle root, time and bits |
| BlockHeader.SerializeInjective | timestamp-service/app/bitcoin/rpc.py:292-317 | two field lists have the same 80 bytes at a height exactly when they agree in every field, a missing parent counting as the zero hash; above height 0 they are then the same |
| BitcoinVerify.EsploraVerify | timestamp-service/app/bitcoin/esplora.py:298-359 | the loop over heights with its second look and its pending verdict equals the specified outcome |
| BitcoinVerify.LookAt | timestamp-service/app/bitcoin/esplora.py:298-359 | the loop body equals one specified step |
| BitcoinVerify.NodeVerify | timestamp-service/app/bitcoin/rpc.py:163-210 | the loop over attestations, the strongest choice and the tip recheck equal the specified outcome |
| BitcoinVerify.SelectStrongest | timestamp-service/app/bitcoin/rpc.py:163-210 | the choice by confirmations, height and hash equals the specified maximum |
| BitcoinAgreement.EsploraSound | timestamp-service/app/bitcoin/esplora.py:298-414 | `verified` means an attested message is the merkle root of a header with valid work that both providers twice named at that height, with at least the minimum confirmations under the lower tip |
| BitcoinAgreement.NodeSound | timestamp-service/app/bitcoin/rpc.py:163-273 | `verified` from Bitcoin Core means the same on the node's headers under one unchanged tip |
| BitcoinAgreement.EsploraExpected | timestamp-service/app/bitcoin/esplora.py:298-414 | on a stable honest chain, the outcome for any attestations: wrong roots are passed over, the lowest right height decides, and a height above the tip makes the verifier unavailable unless a right one was old enough |
| BitcoinAgreement.NodeExpected | timestamp-service/app/bitcoin/rpc.py:163-273 | the same for Bitcoin Core: a wrong root is an error, and a height above the tip counts as unconfirmed |
| BitcoinAgreement.VerifiersAgree | timestamp-service/app/bitcoin/rpc.py:163-273 | so the two verifiers report the same for any attestations exactly when these are comparable: correct ones always, and then both give the lowest height with its hash, time and confirmations |
| BitcoinAgreement.WrongRootDiffers | timestamp-service/app/bitcoin/esplora.py:318-350 | the concrete pair on which they differ: a right and a wrong message at one old enough height |
| BitcoinFailures.QuorumExactly | timestamp-service/app/bitcoin/esplora.py:365-405 | a query for arbitrary providers: what they agree on exactly when nothing is missing, contradictory or skewed; without a contradiction a failure is an outage, and with everything answered a contradiction is invalid evidence |
| BitcoinFailures.EsploraDecision | timestamp-service/app/bitcoin/esplora.py:316-346 | for arbitrary providers, what the first deciding height gives: a failed query as it failed, a header that is not genuine invalid evidence, and an attested, old enough one `verified` if the second look repeats the first and unavailable otherwise |
| BitcoinFailures.EsploraUndecided | timestamp-service/app/bitcoin/esplora.py:348-359 | when no height decides: nothing attested is invalid evidence, a pending height whose second look differs makes the verifier unavailable, and otherwise the proof is unconfirmed with the most confirmations |
| BitcoinFailures.InvalidMeansEvidence | timestamp-service/app/bitcoin/esplora.py:298-414 | so invalid evidence is answered only for malformed attestations, contradicting providers, a header that is not genuine, or roots attested nowhere: never for a missing answer, a tip skew or a second look |
| BitcoinFailures.WorkExactly | timestamp-service/app/bitcoin/esplora.py:503-534 | a header has its work exactly when its digest is no larger than the target its four bytes stand for |
| BitcoinFailures.NodeEvidenceExactly | timestamp-service/app/bitcoin/rpc.py:229-273 | what an arbitrary node gives for one attestation: evidence if header and recheck fit, unavailable for a moved count or recheck, a failed call as it failed, and invalid evidence otherwise |
| BitcoinFailures.NodeDecision | timestamp-service/app/bitcoin/rpc.py:178-186 | the first attestation the node does not back decides, and fails as its look did |
| BitcoinFailures.NodeUndecided | timestamp-service/app/bitcoin/rpc.py:187-210 | when it backs them all: a changed tip is unavailable, otherwise the lowest old enough attestation verifies the proof, with the greatest hash if the node named several, and without one it is unconfirmed with the largest count |
| TimestampTree.ValidateTimestampTree | timestamp-service/app/timestamping/detached.py:82-116 | the worklist accepts exactly the sound trees within the limits, and its four counters are the recursive counts, for trees of any shape |
| TimestampTree.VisitNode | timestamp-service/app/timestamping/detached.py:88-115 | one popped node: counts and stack move by exactly its share |
| TimestampTree.NodesAreOperationsPlusOne | timestamp-service/app/timestamping/detached.py:82-116 | nodes are operations plus one, so the limits 256 and 255 coincide |
| TimestampMerge.AcceptedAttestationsAreComputed | timestamp-service/app/timestamping/detached.py:82-116 | every attestation of an accepted tree sits on a message computed from the file digest by a path of at most 255 append, prepend and SHA-256 operations |
| TimestampMerge.MergeSound | timestamp-service/app/timestamping/calendars.py:284-331 | a merge over the same message never raises, stays sound and attests exactly what both attest |
| TimestampMerge.UpgradeExactly | timestamp-service/app/timestamping/calendars.py:305-331 | an upgrade succeeds exactly when every answer validates over its node's message and the merged tree is within the limits; it then keeps the digest and attests exactly what the proof and the answers attest |
| TimestampMerge.StampSound | timestamp-service/app/timestamping/calendars.py:284-303 | a stamp is a validated tree over the exact digest that attests exactly what the responses that validate attest; there is none when no response validates or the merged tree exceeds the limits |
| OrderReference.ReferenceDecodes | timestamp-service/app/payments/service.py:612-618 | the 26 characters of a reference decode back to the 48-bit time and the 80-bit random part |
| OrderReference.ReferencesSort | timestamp-service/app/payments/service.py:612-618 | references sort as these pairs do, and are equal only for equal pairs |
| IdempotencyKey.EveryStringHasAKey | timestamp-service/app/security/idempotency.py:20-30 | every byte string of 16 to 64 bytes has an accepted key that decodes to it |
| IdempotencyKey.AcceptedExactly | timestamp-service/app/security/idempotency.py:20-30 | a key is accepted exactly when it encodes such a string, and then only that one |
| IdempotencyKey.ReencodesExactly | timestamp-service/app/security/idempotency.py:20-30 | the re-encoding comparison refuses exactly spellings with surplus bits set |
| Zip.InspectZipCentralDirectory | src/lib/verifier.ts:24-81 | the parser, every read in bounds, equals the specified parse |
| Zip.ReadEntries | src/lib/verifier.ts:53-80 | its loop over entries equals the specified recursion |
| Zip.DirectorySound | src/lib/verifier.ts:53-81 | entries of a successful parse tile exactly the announced directory with distinct valid names |
| Zip.ParseExactly | src/lib/verifier.ts:24-81 | parsing gives a list of entries exactly when there is an end record whose directory they tile, distinctly and validly named |
| Zip.ParseRoundTrip | src/lib/verifier.ts:24-81 | for every list of distinctly named records, parsing their encoding gives their entries |
| Photo.BrowserCheck | src/lib/verifier.ts:96-174 | the browser loop finds no failure exactly for accepted lists |
| Photo.PythonCheck | src/lib/package.ts:392-447 | the bundled Python loop finds no failure exactly for accepted lists whose dimensions are all written without fraction and exponent |
| Photo.ChecksAgree | src/lib/package.ts:392-447 | the bundled check never accepts more than the browser, and they agree exactly when every dimension is written without fraction and exponent or the list has a fault both complain of |
| Photo.FractionsDivide | src/lib/package.ts:413-419 | a good photograph whose width is written `560.0` is the concrete input on which they differ |
| Photo.CropsAgree | src/lib/photo.ts:95-120 | both accept the same recorded crop |
| Photo.AcceptedCropIsBest | src/lib/photo.ts:95-120 | an accepted crop is the largest 112k by 91k rectangle, inside the photograph, centred to a pixel, losing at most a twentieth |
| Photo.BoundExactly | src/lib/verifier.ts:114-125 | a photograph record fits its files exactly when one entry has its path, and that has its hash, length, media type and role |
| Photo.CropExactly | src/lib/photo.ts:95-120 | a recorded crop matches exactly when it is the largest rectangle of the ratio, centred and good enough, and recording none matches exactly when there is no such rectangle |
| FileNames.Sanitize | src/lib/core.ts:53-58 | the result is never empty, a dot name or anything but letters, digits, dot, underscore and hyphen |
| FileNames.CandidatesDiffer | src/lib/core.ts:60-75 | differently numbered candidates differ beyond letter case |
| FileNames.TriedCount | src/lib/core.ts:60-75 | n tried names are n names, which is why the loop ends |
| FileNames.UniqueFileName | src/lib/core.ts:60-75 | the loop ends with the first free candidate, no later than one past the used names, fresh beyond letter case, and records it |
| Paths.SafeBelow | src/lib/verifier.ts:83-85 | a safe name below a safe folder is a safe relative path |
| Paths.ManifestBelow | src/lib/verifier.ts:221-225 | below a root a path ends like a manifest exactly when it does by itself |
| Paths.SafeExactly | src/lib/verifier.ts:83-85 | a path is safe exactly when it is non-empty, does not start with a slash, has no backslash and no segment of two dots |
| Package.AddEvidenceFiles | src/lib/package.ts:495-511 | map and manifest list grow together in order |
| Package.ChecksumLines | src/lib/package.ts:757-760 | one line per file with its own hash, in the given order |
| PackageRoundTrip.Seal | src/lib/package.ts:713-761 | manifest, signature and checksums after the evidence; the checksum lines name exactly files before them with their hashes |
| PackageRoundTrip.ManifestsFound | src/lib/verifier.ts:221-225 | the verifier finds one manifest, or several exactly when an evidence path ends like one |
| PackageRoundTrip.AllChecksPass | src/lib/verifier.ts:229-463 | every check passes for a sealed package with honest inputs |
| PackageRoundTrip.SealedVerifies | src/lib/verifier.ts:198-473 | the verdict on a sealed package: all checks pass, or it is refused for two manifests, exactly by its paths |
| PackageBuilder.NamePhotos | src/lib/package.ts:561-564 | the naming loop gives names distinct beyond letter case; `manifest.json` is among them exactly when the first photograph whose safe name is that in any case spells it in lower case |
| PackageBuilder.AllPartsGood | src/lib/package.ts:629-712 | all evidence paths are distinct, safe and none of the three structural files |
| PackageBuilder.LooksLikeTwo | src/lib/package.ts:561-585 | only a photograph or a logo can be taken for a second manifest |
| PackageBuilder.ManifestPhotoClaims | src/lib/package.ts:561-564 | a photograph named `manifest.json` is the concrete input that is |
| CertificatePackage.BuildCertificatePackage | src/lib/package.ts:513-786 | a built package within the limits whose specimen passes the identity check verifies with no failed check, except that it is refused exactly when a photograph or the logo ends up named `manifest.json` |
| PackageSoundness.BuiltHolds | src/lib/package.ts:629-761 | a built package holds every file of the form unchanged at its path, the manifest's text, and its signature |
| PackageSoundness.PassesExactly | src/lib/verifier.ts:198-473 | an archive passes exactly when it is genuine, in terms of its files alone: it opens with one manifest; the signature file signs the manifest's exact bytes under the key whose fingerprint the manifest names; every listed file, the record and every checksum line have their hashes; and schema, identity, inventory and decoded photographs are as the claimed version asks |
| PackageSoundness.VerifiesExactly | src/lib/verifier.ts:198-473 | so an archive verifies exactly when it is genuine for some root and manifest |
| PackageSoundness.ForgedNeverVerifies | src/lib/verifier.ts:293-315 | and one whose signature file does not sign its manifest never does |
| PackageSoundness.VerdictExactly | src/lib/verifier.ts:198-291 | there is a verdict rather than an error exactly for an archive that opens, with a manifest that parses and a key |
| CertificatePackage.PassingHasManifest | src/lib/verifier.ts:221-246 | a passing archive passes for one root and one manifest |
| CertificatePackage.ListedFilesBind | src/lib/verifier.ts:388-473 | two passing archives with the same manifest bytes, of any version, have at every listed path the same bytes, or two contents of one length and one hash |
| CertificatePackage.SameManifestBinds | src/lib/verifier.ts:373-410 | if the version is known, they also have the same paths and nothing else |
| CertificatePackage.UnknownVersionTakesMore | src/lib/verifier.ts:406-412 | if the version is unknown, a passing archive with any new file within the limits that is no manifest still passes |
| CertificatePackage.PathsBoundExactly | src/lib/verifier.ts:198-473 | so the manifest of a passing archive with room for one more file binds its paths exactly when its version is known |
| ManifestVersion.KnownFixesIdentifiers | src/lib/manifest-validation.ts:23-49 | a known version fixes all three identifiers, and the version is unknown exactly when none of them is known |
| ManifestVersion.EarlyIsUnknown | src/lib/manifest-validation.ts:23-49 | `0.9.0` without the other identifiers is a concrete unknown version |

## Left out

- HTTP, authentication, rate limits, settings, DNS pinning, row cleanup and synthetic purge, logging, the React
  interface, certificate rendering and form rules: plumbing or easy members.
- `sortJson` and `stableStringify`: the serializer enters only as an encoding that decodes back.
- Safe error codes on rows and the created_at and updated_at columns.
- Row identifiers: a job is identified with its unique key (tag and order), a notice with kind, version and order, an
  order in the checkout with its reference; lease ids and tokens are counters instead of random strings.
- The order of the claim queries: with `SKIP LOCKED` any claimable row may be leased, and any is.
- Cloud Tasks: `dispatch` is modelled per task, as the look before the call and the write after it; the loop of
  `reconcile` repeats it.
- The runner and the job handlers of `composition.py` as imperative code: they interleave with everything else, so they
  are steps of `Lifecycle`. Which successor a handler enqueues, and when, is left open there: any but a stamp job, for
  its own order, at any time. Backoff delays are arbitrary times.
- `operator.py` upgrade and reverify: `Lifecycle` lets an operator enqueue under any key but the stamp job's, for an
  order in one of the allowed states; the lookup of the proof is left out.
- Stripe: signature, event parsing and session retrieval; the event and the canonical session are inputs. The
  `payment_confirmed` outbox row, of a kind no dispatcher supports, is not written.
- Evidence: one order per state. Handlers and the terminal handler start only once the order has left
  `awaiting_payment`, which `LifecycleProperties.PaidBeforeWork` justifies.
- Evidence: the proof's own copy of the verification metadata, which no handler writes, is absent on every stored row.
- Evidence: ties of observed_at and created_at are broken by insertion order; length columns that a database
  constraint ties to their data are left out.
- Bundles and receipts: their text is opaque and bundling may fail; receipts truncate times to seconds.
- Notices: recipient, subject and body; `_same_message` compares the evidence they were built from.
- Status: the textual patterns of times and message codes.
- Bitcoin transports: hex and JSON parsing, and which of several transport failures is reported.
- Timestamp trees: (de)serialization with its limits on bytes, and the limit on upgrade requests; the library's merge is
  taken as recursive union, and a merge the library would reject raises nothing here because sound trees never meet it.
- `TimestampMerge` gives stamping and upgrading as functions over the list of answers, not as loops over mutable nodes.
- ZIP: names are byte strings with a validity test, and a leading byte-order mark is kept. The limit on the size of the
  ZIP file itself depends on compression and is not modelled.
- Packages: an archive is the list of files the library writes and reads back. Warnings, which do not count for the
  verdict, and the duplicate decoding report are left out. The photographs, size fields and record of a manifest of any
  version are read in the shape the version 2 schema gives them. Unicode folding of file names is opaque.
- Photo: decoded dimensions are compared in `Package`, by the law that a photograph decodes to the size it was given.
- Database isolation below transactions, and migrations.
