/**
 The payment and fulfillment transition relations of an order.
 A `None` from a transition is the ValueError `OrderState` raises.
 */
module Orders {
  import opened Prelude

  datatype Payment = CheckoutOpen | Processing | Paid | Failed | Expired | Refunded | Disputed

  datatype Fulfillment =
    | AwaitingPayment | Queued | Stamping | CalendarPending | BitcoinVerified | Delivered | InManualReview

  function PaymentTargets(p: Payment): set<Payment> {
    match p
    case CheckoutOpen => {Processing, Paid, Failed, Expired, Refunded, Disputed}
    case Processing => {Paid, Failed, Expired, Refunded, Disputed}
    case Paid => {Refunded, Disputed}
    case Disputed => {Refunded}
    case Failed | Expired | Refunded => {}
  }

  function FulfillmentTargets(f: Fulfillment): set<Fulfillment> {
    match f
    case AwaitingPayment => {Queued, InManualReview}
    case Queued => {Stamping, InManualReview}
    case Stamping => {CalendarPending, InManualReview}
    case CalendarPending => {BitcoinVerified, InManualReview}
    case BitcoinVerified => {Delivered, InManualReview}
    case Delivered => {InManualReview}
    case InManualReview => {}
  }

  function TransitionPayment(p: Payment, target: Payment): Option<Payment> {
    if target == p then Some(p)
    else if target in PaymentTargets(p) then Some(target)
    else None
  }

  function TransitionFulfillment(p: Payment, f: Fulfillment, target: Fulfillment): Option<Fulfillment> {
    if target == f then Some(f)
    else if target !in FulfillmentTargets(f) then None
    else if p != Paid && f == AwaitingPayment && target == Queued then None
    else Some(target)
  }

  /** How far fulfillment has come; every legal change moves strictly forward. */
  function Stage(f: Fulfillment): nat {
    match f
    case AwaitingPayment => 0
    case Queued => 1
    case Stamping => 2
    case CalendarPending => 3
    case BitcoinVerified => 4
    case Delivered => 5
    case InManualReview => 6
  }

  /** How many more times payment can change. */
  function PaymentFuel(p: Payment): nat {
    match p
    case CheckoutOpen => 4
    case Processing => 3
    case Paid => 2
    case Disputed => 1
    case Failed | Expired | Refunded => 0
  }

  /** Money was taken at some time, whatever happened to it afterwards. */
  predicate Charged(p: Payment) { p in {Paid, Refunded, Disputed} }

  /** A chain of proper, legal payment changes. */
  ghost predicate PaymentChain(path: seq<Payment>) {
    forall i :: 0 < i < |path| ==> path[i] in PaymentTargets(path[i - 1])
  }

  /** Payment changes at most four times from any start, and never returns to a state it left. */
  lemma {:induction false} PaymentChainBound(path: seq<Payment>)
    requires PaymentChain(path) && |path| > 0
    ensures |path| - 1 <= PaymentFuel(path[0])
    ensures forall i, j :: 0 <= i < j < |path| ==> path[i] != path[j]
  {
    if |path| > 1 {
      var rest := path[1..];
      assert forall i :: 0 < i < |rest| ==> rest[i] == path[i + 1] && rest[i - 1] == path[i];
      PaymentChainBound(rest);
      assert path[1] in PaymentTargets(path[0]);
      ChainFuel(path);
      forall i, j | 0 <= i < j < |path| ensures path[i] != path[j] {
        if i > 0 { assert path[i] == rest[i - 1] && path[j] == rest[j - 1]; }
      }
    }
  }

  /** Fuel drops along a chain, so no later state equals the first. */
  lemma {:induction false} ChainFuel(path: seq<Payment>)
    requires PaymentChain(path) && |path| > 0
    ensures forall j :: 0 < j < |path| ==> PaymentFuel(path[j]) < PaymentFuel(path[0])
  {
    if |path| > 1 {
      ChainFuel(path[..|path| - 1]);
      assert path[|path| - 1] in PaymentTargets(path[|path| - 2]);
      forall j | 0 < j < |path| ensures PaymentFuel(path[j]) < PaymentFuel(path[0]) {
        if j < |path| - 1 { assert path[j] == path[..|path| - 1][j]; }
        else if j > 1 { assert path[j - 1] == path[..|path| - 1][j - 1]; }
      }
    }
  }

  /** Every accepted fulfillment change stays put or moves to a strictly later stage. */
  lemma FulfillmentForward(p: Payment, f: Fulfillment, target: Fulfillment)
    requires TransitionFulfillment(p, f, target).Some?
    ensures target == f || Stage(f) < Stage(target)
  {
  }

  /**
   The accepted changes: staying, one stage further, or manual review from anywhere else.  The first stage needs a
   payment, and nothing leaves manual review.
   */
  lemma FulfillmentExactly(p: Payment, f: Fulfillment, target: Fulfillment)
    ensures TransitionFulfillment(p, f, target).Some? <==>
              || target == f
              || (f != InManualReview && target == InManualReview)
              || (f != InManualReview && target != InManualReview && Stage(target) == Stage(f) + 1
                  && (target == Queued ==> p == Paid))
    ensures TransitionFulfillment(p, f, target).Some? ==> TransitionFulfillment(p, f, target).value == target
  {
  }

  /** Whether the payment is still open. */
  predicate Unsettled(p: Payment) { p == CheckoutOpen || p == Processing }

  /** An open payment may become anything later; a payment may be disputed, and a charged one refunded, once. */
  lemma PaymentExactly(p: Payment, target: Payment)
    ensures target in PaymentTargets(p) <==>
              || (Unsettled(p) && target != CheckoutOpen && target != p)
              || (p == Paid && (target == Disputed || target == Refunded))
              || (p == Disputed && target == Refunded)
  {
  }
}
