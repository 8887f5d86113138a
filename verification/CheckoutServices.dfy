/**
 The checkout service as it runs: one object with the booking's status, its payment rows and the wallet. Each
 repository or provider call is one step of CheckoutProtocol, and a whole request is a sequence of steps of one new
 thread, so the interleaving theorems there are about this code.
 */
module CheckoutServices {
  import opened Common
  import opened WalletLedger
  import opened WalletProofs
  import opened BookingCharges
  import opened WalletServices
  import opened Bookings
  import opened CheckoutProtocol
  import opened CheckoutTheorems

  /** `n` consecutive calls of thread `i`, with nobody in between; the `k`-th is answered by `w(k)`. */
  ghost function Drive(s: State, i: nat, w: nat -> World, n: nat): State {
    if n == 0 then s else Step(Drive(s, i, w, n - 1), Go(i, w(n - 1)))
  }

  /** One more protocol step of the running call. */
  lemma {:induction false} Advance(s: State, s0: State, i: nat, w: nat -> World, n: nat)
    requires s == Drive(s0, i, w, n)
    ensures Step(s, Go(i, w(n))) == Drive(s0, i, w, n + 1)
  {
  }

  datatype CheckoutResult =
    | NotPending | BeingProcessed | NeedsPaymentMethod | PaymentRefused | ActionRequired | Unavailable
    | UnderReview | Unexpected | BookingConfirmed

  class CheckoutService {
    const booking: nat
    const account: nat
    const price: int
    const wallet: WalletService
    var status: BookingStatus
    var payments: seq<PaymentRow>
    ghost var threads: seq<Thread>

    ghost function Value(): State
      reads this, wallet
    {
      State(booking, account, price, wallet.Value(), status, payments, threads)
    }

    constructor (booking: nat, account: nat, price: int, wallet: WalletService)
      ensures this.wallet == wallet
              && Value() == State(booking, account, price, wallet.Value(), CheckoutPending, [], [])
    {
      this.booking, this.account, this.price, this.wallet := booking, account, price, wallet;
      status, payments, threads := CheckoutPending, [], [];
    }

    /** The compare-and-set every claim and every catch block goes through. */
    method TransitionStatus(from: BookingStatus, to: BookingStatus) returns (moved: bool)
      modifies this`status
      ensures moved <==> old(status) == from
      ensures status == if moved then to else old(status)
    {
      moved := status == from;
      if moved { status := to; }
    }

    method UpdatePaymentStatus(pay: Option<nat>, st: PaymentStatus)
      modifies this`payments
      ensures payments == SetPay(old(payments), pay, st)
    {
      if pay.Some? && pay.value < |payments| { payments := payments[pay.value := payments[pay.value].(status := st)]; }
    }

    method ReleaseIfAny(hold: Option<nat>)
      modifies wallet
      ensures wallet.Value() == Release(old(wallet.Value()), hold)
    {
      if hold.Some? { var _ := wallet.ReleaseHold(hold.value); }
    }

    ghost method Move(i: nat, ph: Phase)
      requires i < |threads|
      modifies this`threads
      ensures threads == old(threads)[i := old(threads)[i].(phase := ph)]
    {
      threads := threads[i := threads[i].(phase := ph)];
    }

    /** Thread `i` of this call is in phase `ph`. */
    ghost predicate InPhase(i: nat, ph: Phase)
      reads this
    {
      i < |threads| && threads[i].phase == ph
    }

    /** Row `pay` alone changes, and only if `moves`: to status `st`. */
    static predicate RowsMove(rows: seq<PaymentRow>, rows': seq<PaymentRow>, pay: Option<nat>, moves: bool,
                              st: PaymentStatus) {
      && |rows'| == |rows|
      && forall k: nat :: k < |rows| ==>
           rows'[k] == PaymentRow(rows[k].amount, if moves && pay == Some(k) then st else rows[k].status)
    }

    // Each call below performs one protocol step of thread `i`.

    method ReadStatusCall(ghost i: nat, ghost world: World) returns (pending: bool)
      requires InPhase(i, Start)
      modifies this`threads
      ensures Value() == Step(old(Value()), Go(i, world)) && InPhase(i, if pending then Eligible else Returned)
      ensures pending <==> status.CheckoutPending?
    {
      pending := status.CheckoutPending?;
      Move(i, if pending then Eligible else Returned);
    }

    method ClaimCall(ghost i: nat, ghost world: World) returns (claimed: bool)
      requires InPhase(i, Eligible)
      modifies this`status, this`threads
      ensures Value() == Step(old(Value()), Go(i, world)) && InPhase(i, if claimed then Claimed else Returned)
      ensures claimed <==> old(status).CheckoutPending?
      ensures claimed ==> status.PaymentPending?
      ensures threads[i].(phase := Start) == old(threads)[i].(phase := Start)
    {
      claimed := TransitionStatus(CheckoutPending, PaymentPending);
      Move(i, if claimed then Claimed else Returned);
    }

    /** `ensureAccount` and `getBalance`, when credits are to be applied. */
    method ReadBalanceCall(apply: int, throws: bool, ghost i: nat, ghost world: World) returns (ok: bool, applied: int)
      requires InPhase(i, Claimed) && threads[i].apply == apply > 0 && world.throws == throws
      modifies this`threads
      ensures Value() == Step(old(Value()), Go(i, world))
              && InPhase(i, if ok then BalanceRead(applied) else Unwinding(None))
      ensures threads[i].(phase := Start) == old(threads)[i].(phase := Start)
      ensures ok <==> !throws
      ensures ok ==> applied == Min(Min(apply, Available(wallet.Value(), account)), price)
    {
      hide Available;
      if throws {
        Move(i, Unwinding(None));
        return false, 0;
      }
      ok, applied := true, Min(Min(apply, Available(wallet.Value(), account)), price);
      Move(i, BalanceRead(applied));
    }

    method SkipWalletCall(ghost i: nat, ghost world: World)
      requires InPhase(i, Claimed) && threads[i].apply <= 0
      modifies this`threads
      ensures Value() == Step(old(Value()), Go(i, world)) && InPhase(i, Funded(0, None))
      ensures threads[i].(phase := Start) == old(threads)[i].(phase := Start)
    {
      Move(i, Funded(0, None));
    }

    method CreateHoldCall(applied: int, throws: bool, ghost i: nat, ghost world: World)
        returns (ok: bool, hold: Option<nat>)
      requires InPhase(i, BalanceRead(applied)) && world.throws == throws
      modifies this`threads, wallet
      ensures Value() == Step(old(Value()), Go(i, world))
              && InPhase(i, if ok then Funded(applied, hold) else Unwinding(None))
      ensures threads[i].(phase := Start) == old(threads)[i].(phase := Start)
      ensures ok <==> applied <= 0 || (!throws && applied <= Available(old(wallet.Value()), account))
      ensures hold == if ok && applied > 0 then Some(|old(wallet.Value()).holds|) else None
      ensures wallet.Value() == if hold.Some? then Leg(old(wallet.Value()), account, booking, applied, Active)
              else old(wallet.Value())
    {
      hide Available;
      ok, hold := true, None;
      if applied > 0 {
        ok := false;
        if !throws {
          var r, id := wallet.CreateHold(account, booking, applied);
          if r == Done { ok, hold := true, Some(id); }
        }
      }
      Move(i, if ok then Funded(applied, hold) else Unwinding(None));
    }

    /** How the row of a payment stands after the provider's first answer. */
    static function AnswerStatus(card: CardAnswer): PaymentStatus {
      match card
      case Refused => PaymentFailed
      case NeedsAction => RequiresAction
      case Capturable => PaymentStatus.Authorized
      case _ => Canceled
    }

    /** The rest of the price on the card: the row the provider's answer leaves, and how the request goes on. */
    method CardCall(applied: int, hold: Option<nat>, hasCard: bool, card: CardAnswer, ghost i: nat, ghost world: World)
      returns (r: CheckoutResult, pay: Option<nat>)
      requires InPhase(i, Funded(applied, hold)) && threads[i].hasCard == hasCard && world.card == card
      modifies this`status, this`payments, this`threads, wallet
      ensures Value() == Step(old(Value()), Go(i, world))
      ensures InPhase(i, if r.BookingConfirmed? then Ready(hold, pay) else if r.Unexpected? then Unwinding(hold)
                         else if r.NeedsPaymentMethod? then Unclaimed else Returned)
      ensures threads[i].webhook == old(threads)[i].webhook
      ensures r == if price == applied then BookingConfirmed else if !hasCard then NeedsPaymentMethod
              else if card.Throws? then Unexpected else if card.Refused? then PaymentRefused
              else if card.NeedsAction? then ActionRequired else BookingConfirmed
      ensures status == if r.NeedsPaymentMethod? then CheckoutPending
              else if r.PaymentRefused? then BookingStatus.Failed
              else old(status)
      ensures pay == if price == applied || r.NeedsPaymentMethod? || r.Unexpected? then None else Some(|old(payments)|)
      ensures payments == old(payments)
                          + if pay == None then [] else [PaymentRow(price - applied, AnswerStatus(card))]
      ensures wallet.Value() == if (r.NeedsPaymentMethod? || r.PaymentRefused?) && hold.Some?
              then Apply(old(wallet.Value()), ReleaseHold(hold.value)).0 else old(wallet.Value())
    {
      hide Apply;
      var remaining := price - applied;
      r, pay := BookingConfirmed, None;
      if remaining == 0 {
        Move(i, Ready(hold, None));
      } else if !hasCard {
        ReleaseIfAny(hold);
        status := CheckoutPending;
        r := NeedsPaymentMethod;
        Move(i, Unclaimed);
      } else if card.Throws? {
        r := Unexpected;
        Move(i, Unwinding(hold));
      } else {
        var row := PaymentRow(remaining, if card.Refused? then PaymentFailed
          else if card.NeedsAction? then RequiresAction
                                         else if card.Capturable? then PaymentStatus.Authorized else Canceled);
        pay := Some(|payments|);
        payments := payments + [row];
        if card.Refused? {
          ReleaseIfAny(hold);
          status := BookingStatus.Failed;
          r := PaymentRefused;
          Move(i, Returned);
        } else if card.NeedsAction? {
          r := ActionRequired;
          Move(i, Returned);
        } else {
          Move(i, Ready(hold, pay));
        }
      }
    }

    method LegacyCall(hold: Option<nat>, pay: Option<nat>, legacy: LegacyAnswer, ghost i: nat, ghost world: World)
        returns (r: CheckoutResult)
      requires InPhase(i, Ready(hold, pay)) && world.legacy == legacy
      modifies this`status, this`payments, this`threads, wallet
      ensures Value() == Step(old(Value()), Go(i, world))
      ensures InPhase(i, if r.BookingConfirmed? then LegacyDone(hold, pay) else Returned)
      ensures r == if legacy.Created? then BookingConfirmed else if legacy.SlotUnavailable? then Unavailable
              else UnderReview
      ensures threads[i].webhook == old(threads)[i].webhook
      ensures status == if legacy.Created? then old(status) else if legacy.SlotUnavailable? then BookingStatus.Failed
              else ManualReview
      ensures RowsMove(old(payments), payments, pay, legacy.SlotUnavailable?, Canceled)
      ensures wallet.Value() == if legacy.SlotUnavailable? && hold.Some?
              then Apply(old(wallet.Value()), ReleaseHold(hold.value)).0 else old(wallet.Value())
    {
      hide Apply;
      if legacy.Created? {
        r := BookingConfirmed;
        Move(i, LegacyDone(hold, pay));
      } else if legacy.SlotUnavailable? {
        UpdatePaymentStatus(pay, Canceled);
        ReleaseIfAny(hold);
        status := BookingStatus.Failed;
        r := Unavailable;
        Move(i, Returned);
      } else {
        status := ManualReview;
        r := UnderReview;
        Move(i, Returned);
      }
    }

    method CaptureCardCall(hold: Option<nat>, pay: Option<nat>, captured: bool, ghost i: nat, ghost world: World)
        returns (ok: bool)
      requires InPhase(i, LegacyDone(hold, pay)) && world.captured == captured
      modifies this`status, this`payments, this`threads
      ensures Value() == Step(old(Value()), Go(i, world))
      ensures InPhase(i, if ok then CardDone(hold, pay) else Returned)
      ensures ok <==> pay.None? || captured
      ensures status == if ok then old(status) else ManualReview
      ensures RowsMove(old(payments), payments, pay, true, if captured then Succeeded else PaymentFailed)
      ensures threads[i].webhook == old(threads)[i].webhook
    {
      ok := true;
      if pay.Some? {
        ok := captured;
        UpdatePaymentStatus(pay, if ok then Succeeded else PaymentFailed);
        if !ok { status := ManualReview; }
      }
      Move(i, if ok then CardDone(hold, pay) else Returned);
    }

    method CaptureWalletCall(hold: Option<nat>, pay: Option<nat>, webhook: bool, ghost i: nat, ghost world: World)
        returns (ok: bool)
      requires InPhase(i, CardDone(hold, pay)) && threads[i].webhook == webhook
      modifies this`threads, wallet
      ensures Value() == Step(old(Value()), Go(i, world))
      ensures InPhase(i, if ok then WalletDone(hold, pay) else if webhook then Returned else Unwinding(hold))
      ensures ok <==> hold.None? || Apply(old(wallet.Value()), CaptureHold(hold.value)).1 == Done
      ensures wallet.Value() == if hold.Some? then Apply(old(wallet.Value()), CaptureHold(hold.value)).0
              else old(wallet.Value())
    {
      hide Apply;
      ok := true;
      if hold.Some? {
        var r := wallet.CaptureHold(hold.value);
        ok := r == Done;
      }
      Move(i, if ok then WalletDone(hold, pay) else if webhook then Returned else Unwinding(hold));
    }

    method ConfirmCall(ghost hold: Option<nat>, ghost pay: Option<nat>, ghost i: nat, ghost world: World)
      requires InPhase(i, WalletDone(hold, pay))
      modifies this`status, this`threads
      ensures Value() == Step(old(Value()), Go(i, world)) && InPhase(i, Returned) && status.Confirmed?
    {
      status := BookingStatus.Confirmed;
      Move(i, Returned);
    }

    /** The catch block's compare-and-set; a hold is given back only when it succeeds. */
    method RevertCall(hold: Option<nat>, ghost i: nat, ghost world: World) returns (releases: bool)
      requires InPhase(i, Unwinding(hold))
      modifies this`status, this`threads
      ensures Value() == Step(old(Value()), Go(i, world))
      ensures status == if old(status).PaymentPending? then CheckoutPending else old(status)
      ensures releases <==> hold.Some? && old(status).PaymentPending?
      ensures InPhase(i, if releases then Reverted(hold.value) else Returned)
    {
      var reverted := TransitionStatus(PaymentPending, CheckoutPending);
      releases := reverted && hold.Some?;
      Move(i, if releases then Reverted(hold.value) else Returned);
    }

    method GiveBackCall(hold: nat, ghost i: nat, ghost world: World)
      requires InPhase(i, Reverted(hold))
      modifies this`threads, wallet
      ensures Value() == Step(old(Value()), Go(i, world)) && InPhase(i, Returned)
      ensures wallet.Value() == Apply(old(wallet.Value()), ReleaseHold(hold)).0
    {
      hide Apply;
      ReleaseIfAny(Some(hold));
      Move(i, Returned);
    }

    /** The same block after the exit without a payment method, whose hold is already released. */
    method RevertAgainCall(ghost i: nat, ghost world: World)
      requires InPhase(i, Unclaimed)
      modifies this`status, this`threads
      ensures Value() == Step(old(Value()), Go(i, world)) && InPhase(i, Returned)
      ensures status == if old(status).PaymentPending? then CheckoutPending else old(status)
    {
      var _ := TransitionStatus(PaymentPending, CheckoutPending);
      Move(i, Returned);
    }

    /** The catch block: one or two calls. */
    method CatchBlock(hold: Option<nat>, ghost i: nat, ghost s0: State, ghost w: nat -> World, ghost n: nat)
      returns (ghost m: nat)
      requires InPhase(i, Unwinding(hold)) && Value() == Drive(s0, i, w, n)
      modifies this`status, this`threads, wallet
      ensures Value() == Drive(s0, i, w, m) && InPhase(i, Returned)
      ensures status == if old(status).PaymentPending? then CheckoutPending else old(status)
      ensures wallet.Value() == if old(status).PaymentPending? && hold.Some?
              then Apply(old(wallet.Value()), ReleaseHold(hold.value)).0 else old(wallet.Value())
    {
      hide Step, Drive, CheckoutService.Value, Apply;
      Advance(Value(), s0, i, w, n);
      var releases := RevertCall(hold, i, w(n));
      m := n + 1;
      if releases {
        Advance(Value(), s0, i, w, m);
        GiveBackCall(hold.value, i, w(m));
        m := m + 1;
      }
    }

    /** The two steps that are left once the card is captured. */
    method CaptureWalletAndConfirm(hold: Option<nat>, pay: Option<nat>, webhook: bool, ghost i: nat, ghost s0: State,
        ghost w: nat -> World, ghost n: nat)
      returns (ok: bool, ghost m: nat)
      requires InPhase(i, CardDone(hold, pay)) && threads[i].webhook == webhook && Value() == Drive(s0, i, w, n)
      modifies this`status, this`threads, wallet
      ensures Value() == Drive(s0, i, w, m)
      ensures InPhase(i, if !ok && !webhook then Unwinding(hold) else Returned)
      ensures ok <==> hold.None? || Apply(old(wallet.Value()), CaptureHold(hold.value)).1 == Done
      ensures status == if ok then BookingStatus.Confirmed else old(status)
      ensures wallet.Value() == if hold.None? then old(wallet.Value())
              else Apply(old(wallet.Value()), CaptureHold(hold.value)).0
    {
      hide Step, Drive, CheckoutService.Value, Apply, WalletService.Value;
      Advance(Value(), s0, i, w, n);
      ok := CaptureWalletCall(hold, pay, webhook, i, w(n));
      m := n + 1;
      if !ok { return; }
      Advance(Value(), s0, i, w, m);
      ConfirmCall(hold, pay, i, w(m));
      m := m + 1;
    }

    static lemma {:induction false} NothingThenMoves(a: seq<PaymentRow>, b: seq<PaymentRow>, c: seq<PaymentRow>,
        pay: Option<nat>, st: PaymentStatus)
      requires RowsMove(a, b, pay, false, Canceled) && RowsMove(b, c, pay, true, st)
      ensures RowsMove(a, c, pay, true, st)
    {
      forall k: nat | k < |a| ensures c[k] == PaymentRow(a[k].amount, if pay == Some(k) then st else a[k].status) {
        assert b[k] == PaymentRow(a[k].amount, a[k].status);
      }
    }

    /** The status of rows that do not move is free. */
    static lemma {:induction false} StatusIsFree(a: seq<PaymentRow>, b: seq<PaymentRow>, pay: Option<nat>)
      requires RowsMove(a, b, pay, false, Canceled)
      ensures forall s: PaymentStatus :: RowsMove(a, b, pay, false, s)
    {
    }

    /** The common tail of `checkout` and of the webhook. */
    method ProceedAfterAuthorization(hold: Option<nat>, pay: Option<nat>, webhook: bool, legacy: LegacyAnswer,
        captured: bool, ghost i: nat, ghost s0: State, ghost w: nat -> World, ghost n: nat)
      returns (r: CheckoutResult, ghost m: nat)
      requires InPhase(i, Ready(hold, pay)) && threads[i].webhook == webhook && Value() == Drive(s0, i, w, n)
      requires forall k: nat :: w(k).legacy == legacy && w(k).captured == captured
      modifies this`status, this`payments, this`threads, wallet
      ensures Value() == Drive(s0, i, w, m)
      ensures InPhase(i, if r.Unexpected? && !webhook then Unwinding(hold) else Returned)
      ensures r == if legacy.SlotUnavailable? then Unavailable
              else if legacy.Ambiguous? || (pay.Some? && !captured) then UnderReview
              else if hold.Some? && Apply(old(wallet.Value()), CaptureHold(hold.value)).1 != Done then Unexpected
              else BookingConfirmed
      ensures status == if r.Unavailable? then BookingStatus.Failed else if r.UnderReview? then ManualReview
              else if r.Unexpected? then old(status) else BookingStatus.Confirmed
      ensures RowsMove(old(payments), payments, pay, !legacy.Ambiguous?,
                       if legacy.SlotUnavailable? then Canceled else if captured then Succeeded else PaymentFailed)
      ensures wallet.Value() == if hold.None? || r.UnderReview? then old(wallet.Value())
              else if r.Unavailable? then Apply(old(wallet.Value()), ReleaseHold(hold.value)).0
              else Apply(old(wallet.Value()), CaptureHold(hold.value)).0
    {
      hide Step, Drive, CheckoutService.Value, Apply, WalletService.Value, RowsMove;
      ghost var rows := payments;
      Advance(Value(), s0, i, w, n);
      r := LegacyCall(hold, pay, legacy, i, w(n));
      m := n + 1;
      if !r.BookingConfirmed? {
        if legacy.Ambiguous? { StatusIsFree(rows, payments, pay); }
        return;
      }
      ghost var mid := payments;
      Advance(Value(), s0, i, w, m);
      var ok := CaptureCardCall(hold, pay, captured, i, w(m));
      m := m + 1;
      NothingThenMoves(rows, mid, payments, pay, if captured then Succeeded else PaymentFailed);
      if !ok {
        r := UnderReview;
        return;
      }
      ok, m := CaptureWalletAndConfirm(hold, pay, webhook, i, s0, w, m);
      if !ok { r := Unexpected; }
    }

    /** What the outside answers this call, spread over its steps. */
    ghost predicate Answers(w: nat -> World, balanceThrows: bool, holdThrows: bool, card: CardAnswer,
        legacy: LegacyAnswer, captured: bool) {
      && w(2).throws == balanceThrows && w(3).throws == holdThrows
      && forall k: nat :: w(k).card == card && w(k).legacy == legacy && w(k).captured == captured
    }

    /** The credits a request uses: what was asked for, as far as they are available and needed. */
    ghost function Credits(apply: int, l: Ledger): int {
      if apply <= 0 then 0 else Min(Min(apply, Available(l, account)), price)
    }

    /** The wallet answers one of the calls with an exception. */
    static predicate LegThrows(apply: int, credits: int, balanceThrows: bool, holdThrows: bool) {
      apply > 0 && (balanceThrows || (credits > 0 && holdThrows))
    }

    /** The wallet leg: nothing to apply, or a balance read and a hold. */
    method ApplyWallet(apply: int, balanceThrows: bool, holdThrows: bool, ghost i: nat, ghost s0: State,
        ghost w: nat -> World)
      returns (ok: bool, applied: int, hold: Option<nat>, ghost m: nat)
      requires InPhase(i, Claimed) && threads[i].apply == apply && Value() == Drive(s0, i, w, 2)
      requires w(2).throws == balanceThrows && w(3).throws == holdThrows
      modifies this`threads, wallet
      ensures Value() == Drive(s0, i, w, m) && InPhase(i, if ok then Funded(applied, hold) else Unwinding(None))
      ensures threads[i].(phase := Start) == old(threads)[i].(phase := Start)
      ensures ok <==> !LegThrows(apply, Credits(apply, old(wallet.Value())), balanceThrows, holdThrows)
      ensures ok ==> applied == Credits(apply, old(wallet.Value()))
      ensures hold == if ok && applied > 0 then Some(|old(wallet.Value()).holds|) else None
      ensures wallet.Value() == if hold.Some? then Leg(old(wallet.Value()), account, booking, applied, Active)
              else old(wallet.Value())
    {
      hide Step, Drive, CheckoutService.Value, Leg, WalletService.Value, Available;
      hold := None;
      Advance(Value(), s0, i, w, 2);
      if apply <= 0 {
        SkipWalletCall(i, w(2));
        return true, 0, None, 3;
      }
      ok, applied := ReadBalanceCall(apply, balanceThrows, i, w(2));
      m := 3;
      if ok {
        Advance(Value(), s0, i, w, 3);
        ok, hold := CreateHoldCall(applied, holdThrows, i, w(3));
        m := 4;
      }
    }

    /** The first answer that applies, from the wallet leg on; `rest` is left for the card. */
    static function AnswerOf(rest: int, hasCard: bool, card: CardAnswer, legacy: LegacyAnswer,
        captured: bool): CheckoutResult {
      if rest != 0 && !hasCard then NeedsPaymentMethod
      else if rest != 0 && card.Throws? then Unexpected
      else if rest != 0 && card.Refused? then PaymentRefused
      else if rest != 0 && card.NeedsAction? then ActionRequired
      else if legacy.SlotUnavailable? then Unavailable
      else if legacy.Ambiguous? || (rest != 0 && !captured) then UnderReview
      else BookingConfirmed
    }

    /** What an answer leaves of the booking, its payment row and its hold. */
    ghost predicate Leaves(r: CheckoutResult, credits: int, card: CardAnswer, legacy: LegacyAnswer, l: Ledger,
        rows: seq<PaymentRow>)
      reads this, wallet
    {
      && status == (match r
                    case BookingConfirmed => BookingStatus.Confirmed
                    case UnderReview => ManualReview
                    case PaymentRefused => BookingStatus.Failed
                    case Unavailable => BookingStatus.Failed
                    case ActionRequired => PaymentPending
                    case _ => CheckoutPending)
      && payments == rows + (if price == credits || r.NeedsPaymentMethod? || r.Unexpected? then []
                             else [PaymentRow(price - credits, match r
                                     case PaymentRefused => PaymentFailed
                                     case ActionRequired => RequiresAction
                                     case Unavailable => Canceled
                                     case UnderReview => if legacy.Created? then PaymentFailed
                                       else if card.Capturable? then PaymentStatus.Authorized else Canceled
                                     case _ => Succeeded)])
      && wallet.Value() == if credits <= 0 then l
                           else Leg(l, account, booking, credits, match r
                                  case BookingConfirmed => Captured
                                  case UnderReview => Active
                                  case ActionRequired => Active
                                  case _ => Released)
    }

    /** The wallet leg is in place: a hold on exactly the credits, or none. */
    ghost predicate Reserved(credits: int, hold: Option<nat>, l: Ledger)
      reads wallet
    {
      && WalletInv(l) && (credits > 0 ==> credits <= Available(l, account))
      && hold == (if credits > 0 then Some(|l.holds|) else None)
      && wallet.Value() == if credits > 0 then Leg(l, account, booking, credits, Active) else l
    }

    lemma {:induction false} ReservedMoves(credits: int, hold: Option<nat>, l: Ledger)
      requires Reserved(credits, hold, l)
      ensures hold.Some? ==>
        && Apply(wallet.Value(), CaptureHold(hold.value)).1 == Done
        && Apply(wallet.Value(), CaptureHold(hold.value)).0 == Leg(l, account, booking, credits, Captured)
        && Apply(wallet.Value(), ReleaseHold(hold.value)).0 == Leg(l, account, booking, credits, Released)
    {
      hide WalletInv, Apply, Available, WalletService.Value;
      if hold.Some? {
        LegIsOneHold(l, account, booking, credits, Active);
        CaptureAnswersDone(wallet.Value(), hold.value);
      }
    }

    static lemma {:induction false} LastMoves(rows: seq<PaymentRow>, x: PaymentRow, rows': seq<PaymentRow>, moves: bool,
        st: PaymentStatus)
      requires RowsMove(rows + [x], rows', Some(|rows|), moves, st)
      ensures rows' == rows + [PaymentRow(x.amount, if moves then st else x.status)]
    {
    }

    static lemma {:induction false} NoneMoves(rows: seq<PaymentRow>, rows': seq<PaymentRow>, moves: bool,
        st: PaymentStatus)
      requires RowsMove(rows, rows', None, moves, st)
      ensures rows' == rows
    {
    }

    /** Card, Legacy, captures and confirmation, with the wallet leg in place. */
    method PayRest(credits: int, hold: Option<nat>, hasCard: bool, card: CardAnswer, legacy: LegacyAnswer,
        captured: bool, ghost i: nat, ghost s0: State, ghost w: nat -> World, ghost n: nat, ghost l: Ledger)
      returns (r: CheckoutResult, ghost m: nat)
      requires InPhase(i, Funded(credits, hold)) && Value() == Drive(s0, i, w, n)
      requires threads[i].hasCard == hasCard && !threads[i].webhook && status.PaymentPending?
      requires forall k: nat :: w(k).card == card && w(k).legacy == legacy && w(k).captured == captured
      requires Reserved(credits, hold, l)
      modifies this`status, this`payments, this`threads, wallet
      ensures Value() == Drive(s0, i, w, m)
      ensures InPhase(i, if r.Unexpected? then Unwinding(hold) else if r.NeedsPaymentMethod? then Unclaimed
              else Returned)
      ensures r == AnswerOf(price - credits, hasCard, card, legacy, captured)
      ensures if r.Unexpected? then status.PaymentPending? && payments == old(payments) && Reserved(credits, hold, l)
              else Leaves(r, credits, card, legacy, l, old(payments))
    {
      hide Step, Drive, CheckoutService.Value, Leg, Apply, Available, WalletInv, WalletService.Value, RowsMove;
      ghost var rows := payments;
      ReservedMoves(credits, hold, l);
      Advance(Value(), s0, i, w, n);
      var pay;
      r, pay := CardCall(credits, hold, hasCard, card, i, w(n));
      m := n + 1;
      if r.BookingConfirmed? {
        ghost var asked := payments;
        r, m := ProceedAfterAuthorization(hold, pay, false, legacy, captured, i, s0, w, m);
        ghost var st := if legacy.SlotUnavailable? then Canceled else if captured then Succeeded else PaymentFailed;
        if pay.Some? {
          LastMoves(rows, PaymentRow(price - credits, AnswerStatus(card)), payments, !legacy.Ambiguous?, st);
        } else {
          NoneMoves(asked, payments, !legacy.Ambiguous?, st);
        }
      }
    }

    /** What a finished call leaves: nothing, if the wallet answered with an exception. */
    ghost predicate Ends(r: CheckoutResult, threw: bool, credits: int, card: CardAnswer, legacy: LegacyAnswer,
        l: Ledger,
        rows: seq<PaymentRow>)
      reads this, wallet
    {
      if threw then r.Unexpected? && status.CheckoutPending? && payments == rows && wallet.Value() == l
      else Leaves(r, credits, card, legacy, l, rows)
    }

    /** Everything after the claim: the try block and its catch. */
    method Pay(apply: int, hasCard: bool, balanceThrows: bool, holdThrows: bool, card: CardAnswer,
        legacy: LegacyAnswer, captured: bool, ghost i: nat, ghost s0: State, ghost w: nat -> World)
      returns (r: CheckoutResult, ghost m: nat)
      requires InPhase(i, Claimed) && Value() == Drive(s0, i, w, 2)
      requires threads[i].apply == apply && threads[i].hasCard == hasCard && !threads[i].webhook
      requires status.PaymentPending? && WalletInv(wallet.Value())
      requires Answers(w, balanceThrows, holdThrows, card, legacy, captured)
      modifies this`status, this`payments, this`threads, wallet
      ensures Value() == Drive(s0, i, w, m) && InPhase(i, Returned)
      ensures var credits := Credits(apply, old(wallet.Value()));
              var threw := LegThrows(apply, credits, balanceThrows, holdThrows);
              && r == (if threw then Unexpected else AnswerOf(price - credits, hasCard, card, legacy, captured))
              && Ends(r, threw, credits, card, legacy, old(wallet.Value()), old(payments))
    {
      hide Step, Drive, CheckoutService.Value, Leg, Apply, Available, WalletInv, WalletService.Value, AnswerOf,
        LegThrows;
      ghost var l := wallet.Value();
      var ok, credits, hold;
      ok, credits, hold, m := ApplyWallet(apply, balanceThrows, holdThrows, i, s0, w);
      r := Unexpected;
      if ok { r, m := PayRest(credits, hold, hasCard, card, legacy, captured, i, s0, w, m, l); }
      if r.Unexpected? {
        if ok { ReservedMoves(credits, hold, l); }
        m := CatchBlock(hold, i, s0, w, m);
      }
      if r.NeedsPaymentMethod? {
        Advance(Value(), s0, i, w, m);
        RevertAgainCall(i, w(m));
        m := m + 1;
      }
    }

    /**
     One uninterrupted `checkout` request is a sequence of protocol steps of one new thread, which ends by returning. It
     applies the credits that are asked for, available and needed, charges the rest to the card, and answers for the
     first thing that stops it, with exactly what `Leaves` says behind it.
     */
    method Checkout(apply: int, hasCard: bool, balanceThrows: bool, holdThrows: bool, card: CardAnswer,
        legacy: LegacyAnswer, captured: bool, ghost w: nat -> World)
      returns (r: CheckoutResult)
      requires WalletInv(wallet.Value())
      requires Answers(w, balanceThrows, holdThrows, card, legacy, captured)
      modifies this, wallet
      ensures exists n: nat :: Value() == Drive(Step(old(Value()), Request(apply, hasCard)), |old(threads)|, w, n)
      ensures InPhase(|old(threads)|, Returned)
      ensures var l := old(wallet.Value());
              var credits := if apply <= 0 then 0 else Min(Min(apply, Available(l, account)), price);
              var threw := apply > 0 && (balanceThrows || (credits > 0 && holdThrows));
              && r == (if !old(status).CheckoutPending? then NotPending
                       else if threw then Unexpected
                       else if price != credits && !hasCard then NeedsPaymentMethod
                       else if price != credits && card.Throws? then Unexpected
                       else if price != credits && card.Refused? then PaymentRefused
                       else if price != credits && card.NeedsAction? then ActionRequired
                       else if legacy.SlotUnavailable? then Unavailable
                       else if legacy.Ambiguous? || (price != credits && !captured) then UnderReview
                       else BookingConfirmed)
              && (if r.NotPending? then status == old(status) && payments == old(payments) && wallet.Value() == l
                  else Ends(r, threw, credits, card, legacy, l, old(payments)))
    {
      ghost var i := |threads|;
      ghost var s0 := Step(Value(), Request(apply, hasCard));
      threads := threads + [Thread(apply, hasCard, false, Start)];
      assert Value() == s0 == Drive(s0, i, w, 0);
      hide Step, Drive, CheckoutService.Value, Leg, Apply, Available, WalletInv, WalletService.Value,
        CheckoutService.Leaves;
      Advance(Value(), s0, i, w, 0);
      var pending := ReadStatusCall(i, w(0));
      if !pending { return NotPending; }
      Advance(Value(), s0, i, w, 1);
      var claimed := ClaimCall(i, w(1));
      if !claimed { return BeingProcessed; }
      ghost var m;
      r, m := Pay(apply, hasCard, balanceThrows, holdThrows, card, legacy, captured, i, s0, w);
    }

    /**
     The 3D Secure webhook: the event, then the common tail in a thread of its own. A repeated webhook does nothing.
     */
    method ContinueAfterAuthorizationConfirmed(pay: nat, legacy: LegacyAnswer, captured: bool, ghost w: nat -> World)
      requires forall k: nat :: w(k).legacy == legacy && w(k).captured == captured
      requires WalletInv(wallet.Value())
      modifies this, wallet
      ensures exists n: nat :: Value() == Drive(Step(old(Value()), CapturableWebhook(pay)), |old(threads)|, w, n)
      ensures if pay < |old(payments)| && old(payments)[pay].status.RequiresAction?
              then InPhase(|old(threads)|, Returned)
                && Continued(pay, legacy, captured, old(wallet.Value()), old(payments))
              else Value() == old(Value())
    {
      hide Apply, WalletInv, FindActive, RowsMove;
      ghost var i := |threads|;
      ghost var s0 := Step(Value(), CapturableWebhook(pay));
      if pay >= |payments| || !payments[pay].status.RequiresAction? {
        assert Value() == Drive(s0, i, w, 0);
        return;
      }
      ghost var l, rows := wallet.Value(), payments;
      if FindActive(l.holds, booking).Some? { CaptureAnswersDone(l, FindActive(l.holds, booking).value); }
      var hold := FindActive(wallet.holds, booking);
      UpdatePaymentStatus(Some(pay), PaymentStatus.Authorized);
      ghost var authorized := payments;
      status := PaymentPending;
      threads := threads + [Thread(0, true, true, Ready(hold, Some(pay)))];
      assert Value() == s0 == Drive(s0, i, w, 0);
      hide Step, Drive, CheckoutService.Value, WalletService.Value;
      var r;
      ghost var m;
      r, m := ProceedAfterAuthorization(hold, Some(pay), true, legacy, captured, i, s0, w, 0);
      SecondMove(rows, authorized, payments, pay, !legacy.Ambiguous?,
        if legacy.SlotUnavailable? then Canceled else if captured then Succeeded else PaymentFailed);
    }

    static lemma {:induction false} SecondMove(a: seq<PaymentRow>, b: seq<PaymentRow>, c: seq<PaymentRow>, pay: nat,
        moves: bool, st: PaymentStatus)
      requires b == SetPay(a, Some(pay), PaymentStatus.Authorized) && RowsMove(b, c, Some(pay), moves, st)
      ensures RowsMove(a, c, Some(pay), true, if moves then st else PaymentStatus.Authorized)
    {
    }

    /**
     A confirmed 3D Secure payment ends like an immediate one: given back when the slot is taken, kept for an
     administrator when Legacy is uncertain or the capture fails, captured together with the active hold otherwise.
     */
    ghost predicate Continued(pay: nat, legacy: LegacyAnswer, captured: bool, l: Ledger, rows: seq<PaymentRow>)
      reads this, wallet
    {
      var hold := FindActive(l.holds, booking);
      && RowsMove(rows, payments, Some(pay), true,
                  if legacy.SlotUnavailable? then Canceled else if legacy.Ambiguous? then PaymentStatus.Authorized
                  else if captured then Succeeded else PaymentFailed)
      && status == (if legacy.SlotUnavailable? then BookingStatus.Failed
                    else if legacy.Ambiguous? || !captured then ManualReview else BookingStatus.Confirmed)
      && wallet.Value() == (if hold.None? || status.ManualReview? then l
                            else if status.Failed? then Apply(l, ReleaseHold(hold.value)).0
                            else Apply(l, CaptureHold(hold.value)).0)
    }

    /** The failure webhook is one step of the protocol. */
    method HandlePaymentFailedViaWebhook(pay: nat)
      modifies this, wallet
      ensures Value() == Step(old(Value()), FailedWebhook(pay))
      ensures if pay >= |old(payments)| || old(payments)[pay].status.Succeeded?
              || old(payments)[pay].status.PaymentFailed?
              then Value() == old(Value())
              else
                var hold := FindActive(old(wallet.Value()).holds, booking);
                && RowsMove(old(payments), payments, Some(pay), true, PaymentFailed)
                && status == (if old(status).Confirmed? then BookingStatus.Confirmed else BookingStatus.Failed)
                && wallet.Value() == (if hold.None? then old(wallet.Value())
                                      else Apply(old(wallet.Value()), ReleaseHold(hold.value)).0)
    {
      hide Apply, FindActive;
      if pay >= |payments| || payments[pay].status.Succeeded? || payments[pay].status.PaymentFailed? { return; }
      UpdatePaymentStatus(Some(pay), PaymentFailed);
      var hold := FindActive(wallet.holds, booking);
      ReleaseIfAny(hold);
      if !status.Failed? && !status.Confirmed? { status := BookingStatus.Failed; }
    }
  }
}
