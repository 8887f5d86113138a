/**
 The FULL checkout of one booking: any number of checkout requests and provider webhooks, interleaved
 over the real wallet ledger, with the provider and Legacy answering as they like. Reads and conditional
 updates are steps of their own, in the two exits that un-claim the booking too; a sequence of writes
 without a conditional update is one step.
 */
module CheckoutProtocol {
  import opened Common
  import opened WalletLedger
  import opened WalletProofs
  import opened Bookings

  /** Where one request stands; `hold` and `pay` are its funding legs. */
  datatype Phase =
    | Start
    | Eligible
    | Claimed
    | BalanceRead(applied: int)
    | Funded(applied: int, hold: Option<nat>)
    | Ready(hold: Option<nat>, pay: Option<nat>)
    | LegacyDone(hold: Option<nat>, pay: Option<nat>)
    | CardDone(hold: Option<nat>, pay: Option<nat>)
    | WalletDone(hold: Option<nat>, pay: Option<nat>)
    | Unwinding(hold: Option<nat>)
    | Unclaimed
    | Reverted(open: nat)
    | Returned

  /** A checkout request, or the continuation a webhook starts. */
  datatype Thread = Thread(apply: int, hasCard: bool, webhook: bool, phase: Phase)

  datatype State = State(booking: nat, wallet: nat, price: int, ledger: Ledger, status: BookingStatus,
                         payments: seq<PaymentRow>, threads: seq<Thread>)

  /** What the outside answers if the step asks it. */
  datatype World = World(card: CardAnswer, legacy: LegacyAnswer, captured: bool, throws: bool)

  datatype Event =
    | Request(apply: int, hasCard: bool)
    | Go(thread: nat, world: World)
    | CapturableWebhook(pay: nat)
    | FailedWebhook(pay: nat)
    | OtherWalletOp(op: WalletLedger.Op)

  function Release(l: Ledger, hold: Option<nat>): Ledger {
    if hold.Some? then Apply(l, ReleaseHold(hold.value)).0 else l
  }

  /** `findActiveHoldForBooking`. */
  function FindActive(holds: seq<Hold>, booking: nat): (r: Option<nat>)
    ensures r.Some? ==> r.value < |holds| && holds[r.value].booking == booking && holds[r.value].status.Active?
    ensures r.None? ==> forall h :: h in holds ==> !(h.booking == booking && h.status.Active?)
  {
    if holds == [] then None
    else
      var n := |holds| - 1;
      var r := FindActive(holds[..n], booking);
      if r.Some? then r
      else if holds[n].booking == booking && holds[n].status.Active? then Some(n) else None
  }

  function At(s: State, i: nat, ph: Phase): State
    requires i < |s.threads|
  {
    s.(threads := s.threads[i := s.threads[i].(phase := ph)])
  }

  function SetPay(payments: seq<PaymentRow>, pay: Option<nat>, st: PaymentStatus): seq<PaymentRow> {
    if pay.Some? && pay.value < |payments| then payments[pay.value := payments[pay.value].(status := st)] else payments
  }

  /** The wallet leg: read the balance, then reserve. */
  function WalletStep(s: State, i: nat, world: World): State
    requires i < |s.threads|
  {
    var t := s.threads[i];
    match t.phase
    case Claimed =>
      if t.apply <= 0 then At(s, i, Funded(0, None))
      else if world.throws then At(s, i, Unwinding(None))
      else At(s, i, BalanceRead(Min(Min(t.apply, Available(s.ledger, s.wallet)), s.price)))
    case BalanceRead(applied) =>
      if applied <= 0 then At(s, i, Funded(applied, None))
      else if world.throws then At(s, i, Unwinding(None))
      else
        var (ledger, r) := Apply(s.ledger, CreateHold(s.wallet, s.booking, applied));
        At(s.(ledger := ledger), i, if r == Done then Funded(applied, Some(|s.ledger.holds|)) else Unwinding(None))
    case _ => s
  }

  /** The card leg: nothing left to pay, no card, or the provider's answer with its payment row. */
  function CardStep(s: State, i: nat, applied: int, hold: Option<nat>, world: World): State
    requires i < |s.threads|
  {
    var remaining := s.price - applied;
    if remaining == 0 then At(s, i, Ready(hold, None))
    else if !s.threads[i].hasCard then
      At(s.(ledger := Release(s.ledger, hold), status := CheckoutPending), i, Unclaimed)
    else
      match world.card
      case Throws => At(s, i, Unwinding(hold))
      case Refused =>
        At(s.(payments := s.payments + [PaymentRow(remaining, PaymentFailed)], ledger := Release(s.ledger, hold),
          status := Failed), i, Returned)
      case NeedsAction => At(s.(payments := s.payments + [PaymentRow(remaining, RequiresAction)]), i, Returned)
      case Capturable => At(s.(payments := s.payments + [PaymentRow(remaining, PaymentStatus.Authorized)]), i,
        Ready(hold, Some(|s.payments|)))
      case CanceledByProvider => At(s.(payments := s.payments + [PaymentRow(remaining, Canceled)]), i,
        Ready(hold, Some(|s.payments|)))
  }

  /** `proceedAfterAuthorization`: Legacy, card capture, wallet capture, confirmation. */
  function ProceedStep(s: State, i: nat, world: World): State
    requires i < |s.threads|
  {
    var t := s.threads[i];
    match t.phase
    case Ready(hold, pay) =>
      if world.legacy.Created? then At(s, i, LegacyDone(hold, pay))
      else if world.legacy.SlotUnavailable? then
        At(s.(payments := SetPay(s.payments, pay, Canceled), ledger := Release(s.ledger, hold), status := Failed), i,
          Returned)
      else At(s.(status := ManualReview), i, Returned)
    case LegacyDone(hold, pay) =>
      if pay.None? then At(s, i, CardDone(hold, pay))
      else if world.captured then At(s.(payments := SetPay(s.payments, pay, Succeeded)), i, CardDone(hold, pay))
      else At(s.(payments := SetPay(s.payments, pay, PaymentFailed), status := ManualReview), i, Returned)
    case CardDone(hold, pay) =>
      if hold.None? then At(s, i, WalletDone(hold, pay))
      else
        var (ledger, r) := Apply(s.ledger, CaptureHold(hold.value));
        At(s.(ledger := ledger), i, if r == Done then WalletDone(hold, pay) else if t.webhook then Returned
          else Unwinding(hold))
    case WalletDone(_, _) => At(s.(status := Confirmed), i, Returned)
    case _ => s
  }

  function GoStep(s: State, i: nat, world: World): State
    requires i < |s.threads|
  {
    match s.threads[i].phase
    case Start => At(s, i, if s.status.CheckoutPending? then Eligible else Returned)
    case Eligible => if s.status.CheckoutPending? then At(s.(status := PaymentPending), i, Claimed)
      else At(s, i, Returned)
    case Claimed => WalletStep(s, i, world)
    case BalanceRead(_) => WalletStep(s, i, world)
    case Funded(applied, hold) => CardStep(s, i, applied, hold, world)
    case Ready(_, _) => ProceedStep(s, i, world)
    case LegacyDone(_, _) => ProceedStep(s, i, world)
    case CardDone(_, _) => ProceedStep(s, i, world)
    case WalletDone(_, _) => ProceedStep(s, i, world)
    case Unwinding(hold) =>
      if !s.status.PaymentPending? then At(s, i, Returned)
      else At(s.(status := CheckoutPending), i, if hold.Some? then Reverted(hold.value) else Returned)
    case Unclaimed => At(if s.status.PaymentPending? then s.(status := CheckoutPending) else s, i, Returned)
    case Reverted(open) => At(s.(ledger := Release(s.ledger, Some(open))), i, Returned)
    case Returned => s
  }

  /** 3D Secure finished: take the parked payment and the booking's active hold, and proceed. */
  function CapturableStep(s: State, pay: nat): State {
    if pay < |s.payments| && s.payments[pay].status.RequiresAction? then
      var hold := FindActive(s.ledger.holds, s.booking);
      s.(payments := SetPay(s.payments, Some(pay), PaymentStatus.Authorized), status := PaymentPending,
         threads := s.threads + [Thread(0, true, true, Ready(hold, Some(pay)))])
    else s
  }

  /** `payment_failed`: ignored for a payment that succeeded or failed before. */
  function FailedStep(s: State, pay: nat): State {
    if pay < |s.payments| && !s.payments[pay].status.Succeeded? && !s.payments[pay].status.PaymentFailed? then
      s.(payments := SetPay(s.payments, Some(pay), PaymentFailed),
         ledger := Release(s.ledger, FindActive(s.ledger.holds, s.booking)),
         status := if s.status.Confirmed? then s.status else Failed)
    else s
  }

  function Step(s: State, e: Event): State {
    match e
    case Request(apply, hasCard) => s.(threads := s.threads + [Thread(apply, hasCard, false, Start)])
    case Go(i, world) => if i < |s.threads| then GoStep(s, i, world) else s
    case CapturableWebhook(pay) => CapturableStep(s, pay)
    case FailedWebhook(pay) => FailedStep(s, pay)
    case OtherWalletOp(op) => s.(ledger := Apply(s.ledger, op).0)
  }

  predicate TouchesBooking(l: Ledger, op: WalletLedger.Op, booking: nat) {
    match op
    case CreateHold(_, b, _) => b == booking
    case ReleaseHold(h) => h < |l.holds| && l.holds[h].booking == booking
    case ReleaseHoldPartially(h, _) => h < |l.holds| && l.holds[h].booking == booking
    case CaptureHold(h) => h < |l.holds| && l.holds[h].booking == booking
    case _ => false
  }

  /**
   Other wallet traffic is non-negative and leaves this booking's holds alone, and `payment_failed` only arrives for
   intents that were never authorised.
   */
  predicate Allowed(s: State, e: Event) {
    && (e.OtherWalletOp? ==> NonNegative(e.op) && !TouchesBooking(s.ledger, e.op, s.booking))
    && (e.FailedWebhook? && e.pay < |s.payments| ==>
          !s.payments[e.pay].status.Authorized? && !s.payments[e.pay].status.Canceled?)
  }

  /** The booking is open again, and the catch block still has a step to take. */
  predicate Exiting(ph: Phase) { ph.Unclaimed? || ph.Reverted? }

  predicate SomebodyExiting(s: State) { exists j :: 0 <= j < |s.threads| && Exiting(s.threads[j].phase) }

  /** This step is the compare-and-set that claims the booking. */
  predicate Claims(s: State, e: Event) {
    e.Go? && e.thread < |s.threads| && s.threads[e.thread].phase.Eligible? && s.status.CheckoutPending?
  }

  /** Nobody claims the booking while another request is still leaving it. */
  predicate Orderly(s: State, e: Event) { Claims(s, e) ==> !SomebodyExiting(s) }

  /**
   Nobody claims the booking while another request is about to un-claim it once more; and a request with a card does not
   claim it while another one is about to give a hold back either.
   */
  predicate Safe(s: State, e: Event) {
    Claims(s, e) ==>
      forall j :: 0 <= j < |s.threads| ==>
        !s.threads[j].phase.Unclaimed? && (s.threads[j].phase.Reverted? ==> !s.threads[e.thread].hasCard)
  }

  /** One event, if it can happen. */
  function AllowedStep(s: State, e: Event): State { if Allowed(s, e) then Step(s, e) else s }

  /** One event, if it can happen and is safe. */
  function SafeStep(s: State, e: Event): State { if Allowed(s, e) && Safe(s, e) then Step(s, e) else s }
}
