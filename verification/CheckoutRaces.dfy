/**
 What claims that are not safe, or not orderly, do to a FULL checkout: every single unsafe claim lets the wrong amount
 be captured, so that safe is exactly the condition; and runs from every open booking that reopen or fail it after it
 has been paid, confirm it underpaid, or hold its money twice.
 */
module CheckoutRaces {
  import opened Common
  import opened Reachability
  import opened WalletLedger
  import opened WalletProofs
  import opened Bookings
  import opened CheckoutProtocol
  import opened CheckoutProofs
  import opened CheckoutTheorems
  import opened CheckoutMoves

  // ---------------------------------------------------------------------
  // Safe is exactly the condition
  // ---------------------------------------------------------------------

  predicate WronglyConfirmed(s: State) { s.status.Confirmed? && PaidIn(s) != s.price }

  lemma {:induction false} CapturedSnoc(holds: seq<Hold>, h: Hold, booking: nat)
    ensures CapturedHolds(holds + [h], booking)
            == CapturedHolds(holds, booking) + (if h.booking == booking && h.status.Captured? then h.amount else 0)
  {
    assert (holds + [h])[..|holds|] == holds;
  }

  lemma {:induction false} NothingCaptured(holds: seq<Hold>, booking: nat)
    requires forall k :: 0 <= k < |holds| && holds[k].booking == booking ==> !holds[k].status.Captured?
    ensures CapturedHolds(holds, booking) == 0
  {
    CapturedIsLive(holds, booking, None);
  }

  /** Before a claim nothing is captured; either nobody is responsible, or the one who is about to un-claim again. */
  lemma {:induction false} BeforeClaim(s: State, e: Event, o: Owner, loose: set<nat>)
    requires InvWith(s, o, loose) && Claims(s, e)
    ensures s.payments == [] && WalletInv(s.ledger) && OnlyLive(s.ledger.holds, s.booking, None, loose)
    ensures CapturedHolds(s.ledger.holds, s.booking) == 0
    ensures forall j, k ::
              0 <= j < k < |s.threads| && s.threads[j].phase.Unclaimed? ==> !s.threads[k].phase.Unclaimed?
    ensures Step(s, e) == At(s.(status := PaymentPending), e.thread, Claimed)
  {
    hide WalletInv, GivenBack;
    assert OnlyLive(s.ledger.holds, s.booking, None, loose);
    NothingCaptured(s.ledger.holds, s.booking);
  }

  /** If the booking is still to be un-claimed again, two new requests can be in checkout at once. */
  lemma {:induction false} TwoMayEnter(s: State, e: Event, j: nat) returns (u: State)
    requires Claims(s, e) && WalletInv(s.ledger) && s.price > 0 && j < |s.threads| && s.threads[j].phase.Unclaimed?
    requires forall k :: 0 <= k < |s.threads| && s.threads[k].phase.Unclaimed? ==> k == j
    ensures Reaches(SafeStep, Step(s, e), u) && WalletInv(u.ledger) && u.ledger.holds == s.ledger.holds
    ensures u.payments == s.payments && u.price == s.price && u.booking == s.booking && u.wallet == s.wallet
    ensures Available(u.ledger, u.wallet) >= 2 * s.price && |u.threads| == |s.threads| + 2
    ensures u.threads[|s.threads|..] ==
            [Thread(s.price, false, false, Claimed), Thread(s.price, false, false, Claimed)]
  {
    hide Reaches, WalletInv, Available;
    var t, k, n := Step(s, e), e.thread, |s.threads|;
    assert t == At(s.(status := PaymentPending), k, Claimed);
    ReachesItself(SafeStep, t);
    u := Fund(t, t, 2 * s.price);
    u := Moves(t, u, j, CALM);
    u := Then(t, u, Request(s.price, false));
    u := Then(t, u, Request(s.price, false));
    assert u.status.CheckoutPending? && u.threads[k].phase == Claimed;
    u := Enter(t, u, n);
    u := GiveUp(t, u, k);
    u := Enter(t, u, n + 1);
  }

  lemma {:induction false} BothPay(t: State, u: State, n: nat) returns (v: State)
    requires Reaches(SafeStep, t, u) && WalletInv(u.ledger) && u.price > 0 && u.payments == []
    requires CapturedHolds(u.ledger.holds, u.booking) == 0 && Available(u.ledger, u.wallet) >= 2 * u.price
    requires |u.threads| == n + 2
    requires u.threads[n..] == [Thread(u.price, false, false, Claimed), Thread(u.price, false, false, Claimed)]
    ensures Reaches(SafeStep, t, v) && v.status.Confirmed? && v.price == u.price && PaidIn(v) == 2 * v.price
    ensures v.payments == []
  {
    hide Reaches, WalletInv, Available, CapturedHolds;
    assert u.threads[n] == u.threads[n..][0] && u.threads[n + 1] == u.threads[n..][1];
    var paid := Hold(u.wallet, u.booking, u.price, HoldStatus.Captured);
    v := PayByWallet(t, u, n);
    v := PayByWallet(t, v, n + 1);
    CapturedSnoc(u.ledger.holds, paid, u.booking);
    CapturedSnoc(u.ledger.holds + [paid], paid, u.booking);
    NoRows(v.payments);
  }

  /** A request with a card, claiming while holds are being given back, can park a payment for the whole price. */
  lemma {:induction false} CardMayPark(s: State, e: Event) returns (u: State)
    requires Claims(s, e) && WalletInv(s.ledger) && s.price > 0 && s.payments == [] && s.threads[e.thread].hasCard
    ensures Reaches(SafeStep, Step(s, e), u) && WalletInv(u.ledger) && u.ledger.holds == s.ledger.holds
    ensures u.payments == [PaymentRow(s.price, RequiresAction)] && u.price == s.price && u.booking == s.booking
  {
    hide Reaches, WalletInv, Available;
    var t, k := Step(s, e), e.thread;
    assert t == At(s.(status := PaymentPending), k, Claimed);
    ReachesItself(SafeStep, t);
    u := Drain(t, t);
    u := Moves(t, u, k, CHALLENGED);
    if s.threads[k].apply > 0 {
      assert u.threads[k].phase == BalanceRead(0);
      u := Moves(t, u, k, CHALLENGED);
    }
    assert u.threads[k].phase == Funded(0, None);
    u := Moves(t, u, k, CHALLENGED);
  }

  /** The webhook then captures the card and, on top, a hold that was to be given back. */
  lemma {:induction false} WebhookTakesMore(t: State, u: State, loose: set<nat>, h: nat) returns (v: State)
    requires Reaches(SafeStep, t, u) && WalletInv(u.ledger) && OnlyLive(u.ledger.holds, u.booking, None, loose)
    requires h in loose && u.payments == [PaymentRow(u.price, RequiresAction)]
    ensures Reaches(SafeStep, t, v) && v.status.Confirmed? && v.price == u.price && PaidIn(v) > v.price
    ensures |v.payments| == 1
  {
    hide Reaches, WalletInv, FindActive, CapturedHolds, CapturedCards, Apply;
    var holds, n := u.ledger.holds, |u.threads|;
    assert holds[h] in holds;
    var r := FindActive(holds, u.booking).value;
    v := Then(t, u, CapturableWebhook(0));
    assert v.threads[n].phase == Ready(Some(r), Some(0));
    CaptureMarks(v.ledger, r);
    v := Conclude(t, v, n, Some(r), Some(0));
    assert v.ledger.holds == holds[r := holds[r].(status := HoldStatus.Captured)];
    CapturedIsLive(v.ledger.holds, v.booking, Some(r));
    OneRow(v.payments);
  }

  /**
   After any unsafe claim, safe steps alone can confirm the booking with a wrong amount captured, and one card at
   most.
   */
  lemma {:induction false} UnsafeClaimCapturesWrongly(s: State, e: Event, o: Owner, loose: set<nat>)
    requires InvWith(s, o, loose) && !Safe(s, e) && s.price > 0
    ensures exists u :: Reaches(SafeStep, Step(s, e), u) && WronglyConfirmed(u) && |u.payments| <= 1
  {
    hide Reaches, WalletInv, InvWith, Step, CapturedHolds, CapturedCards, Available;
    BeforeClaim(s, e, o, loose);
    var u;
    if j: nat :| j < |s.threads| && s.threads[j].phase.Unclaimed? {
      u := TwoMayEnter(s, e, j);
      u := BothPay(Step(s, e), u, |s.threads|);
    } else {
      var j: nat :| j < |s.threads| && s.threads[j].phase.Reverted? && s.threads[e.thread].hasCard;
      LeaverIsLoose(s, o, loose, j);
      u := CardMayPark(s, e);
      u := WebhookTakesMore(Step(s, e), u, loose, s.threads[j].phase.open);
    }
    assert WronglyConfirmed(u);
  }

  lemma {:induction false} LeaverIsLoose(s: State, o: Owner, loose: set<nat>, j: nat)
    requires InvWith(s, o, loose) && j < |s.threads| && s.threads[j].phase.Reverted?
    ensures s.threads[j].phase.open in loose
  {
    hide WalletInv;
  }

  /** What the four theorems about the money say of one state. */
  ghost predicate MoneyIsRight(s: State) {
    && (s.status.Confirmed? ==> PaidIn(s) == s.price)
    && (s.status.CheckoutPending? || s.status.Failed? ==> KeepsNothing(s))
    && (s.status.ManualReview? ==> KeepsBothLegs(s))
    && (SomethingCaptured(s) ==> s.status.Confirmed? || exists t :: t in s.threads && Capturing(t.phase))
  }

  lemma {:induction false} SoundMeansRight(s: State, o: Owner, loose: set<nat>)
    requires InvWith(s, o, loose)
    ensures MoneyIsRight(s)
  {
    hide InvWith, PaidIn, KeepsNothing, KeepsBothLegs, SomethingCaptured;
    if s.status.ManualReview? { LegsUnderReview(s, o, loose); }
    if s.status.Confirmed? { PaidWhenConfirmed(s, o, loose); }
    if s.status.CheckoutPending? || s.status.Failed? { NothingWhenOpenOrFailed(s, o, loose); }
    if SomethingCaptured(s) { ConfirmedWhenCaptured(s, o, loose); }
  }

  /**
   Safe is exactly the condition: from a sound state one more step leaves the money right, however the run goes on by
   safe steps, if and only if that step is safe.
   */
  lemma {:induction false} SafeExactly(s: State, e: Event, o: Owner, loose: set<nat>)
    requires InvWith(s, o, loose) && Allowed(s, e) && s.price > 0
    ensures Safe(s, e) <==> forall u :: Reaches(SafeStep, Step(s, e), u) ==> MoneyIsRight(u)
  {
    hide InvWith, Step, Allowed, Safe, PaidIn, KeepsNothing, KeepsBothLegs, SomethingCaptured;
    if Safe(s, e) {
      forall u | Reaches(SafeStep, Step(s, e), u) ensures MoneyIsRight(u) {
        var events: seq<Event> :| Play(SafeStep, Step(s, e), events) == u;
        var o', loose' := StepKeeps(s, e, o, loose);
        o', loose' := PlayedSafelyKeeps(Step(s, e), events, o', loose');
        SoundMeansRight(u, o', loose');
      }
    } else {
      UnsafeClaimCapturesWrongly(s, e, o, loose);
      var u :| Reaches(SafeStep, Step(s, e), u) && WronglyConfirmed(u);
      assert !MoneyIsRight(u);
    }
  }

  /** The same over runs: the first step that is not safe is exactly where the money can first go wrong. */
  lemma {:induction false} SafeIsExactInRuns(states: seq<State>, events: seq<Event>, k: nat)
    requires IsSafeRun(states, events, k) && k < |events| && states[k].price > 0
    ensures MoneyIsRight(states[k])
    ensures Safe(states[k], events[k]) <==> forall u :: Reaches(SafeStep, states[k + 1], u) ==> MoneyIsRight(u)
  {
    hide Step, InvWith, MoneyIsRight, Reaches, Safe, WalletInv;
    var o, loose := RunKeeps(states, events, k);
    SoundMeansRight(states[k], o, loose);
    SafeExactly(states[k], events[k], o, loose);
    assert states[k + 1] == Step(states[k], events[k]);
  }

  // ---------------------------------------------------------------------
  // Runs from an open booking
  // ---------------------------------------------------------------------

  predicate AllReturned(s: State) { forall t :: t in s.threads ==> t.phase.Returned? }

  lemma {:induction false} InitiallyNothing(s: State)
    requires Initial(s)
    ensures forall k :: 0 <= k < |s.ledger.holds| && s.ledger.holds[k].booking == s.booking ==>
              s.ledger.holds[k].status.Released?
  {
    hide WalletInv;
  }

  /**
   Three requests, the first without wallet and card: it has un-claimed once, and the second has claimed already. That
   claim is the unsafe one.
   */
  lemma {:induction false} ClaimsTooEarly(s0: State, s: State, apply: int, card: bool, apply2: int, card2: bool)
    returns (t: State)
    requires Reaches(AllowedStep, s0, s) && s.status.CheckoutPending? && s.threads == [] && s.price > 0
    ensures Reaches(AllowedStep, s0, t)
    ensures t == s.(status := PaymentPending, threads := [Thread(0, false, false, Unclaimed),
                      Thread(apply, card, false, Claimed), Thread(apply2, card2, false, Start)])
  {
    hide Reaches;
    ReachesItself(SafeStep, s);
    var u := Then(s, s, Request(0, false));
    u := Then(s, u, Request(apply, card));
    u := Then(s, u, Request(apply2, card2));
    u := Enter(s, u, 0);
    u := LeaveWithoutCard(s, u, 0);
    assert u.threads[1].phase.Start? && u.status.CheckoutPending?;
    u := Moves(s, u, 1, CALM);
    SafelyIsReached(s0, s, u);
    ReachesNext(AllowedStep, s0, u, Go(1, CALM));
    t := AllowedStep(u, Go(1, CALM));
    assert t.threads == [Thread(0, false, false, Unclaimed), Thread(apply, card, false, Claimed),
                         Thread(apply2, card2, false, Start)];
  }

  /** The first request's second un-claim takes the second one's claim away, and the third enters. */
  lemma {:induction false} ThirdEnters(t: State, u: State) returns (v: State)
    requires Reaches(SafeStep, t, u) && |u.threads| == 3 && u.status.PaymentPending?
    requires u.threads[0].phase.Unclaimed? && InCheckout(u.threads[1].phase) && !Exiting(u.threads[1].phase)
    requires u.threads[2].phase.Start?
    ensures Reaches(SafeStep, t, v) && v == u.(threads := v.threads) && |v.threads| == 3
    ensures v.threads[0].phase.Returned? && v.threads[1] == u.threads[1]
    ensures v.threads[2] == u.threads[2].(phase := Claimed)
  {
    hide Reaches;
    v := Moves(t, u, 0, CALM);
    v := Enter(t, v, 2);
  }

  /**
   The exit without a payment method un-claims and then un-claims again in the catch block. If a second request claims
   in between, the catch takes its claim away, and a third request enters: two requests are in checkout at once.
   */
  lemma {:induction false} HalfExitLetsTwoIn(s: State)
    requires Initial(s) && s.price > 0
    ensures exists t ::
              && Reaches(AllowedStep, s, t) && |t.threads| == 3
              && InCheckout(t.threads[1].phase) && InCheckout(t.threads[2].phase)
  {
    hide Reaches, WalletInv;
    ReachesItself(AllowedStep, s);
    var t := ClaimsTooEarly(s, s, 0, true, 0, true);
    ReachesItself(SafeStep, t);
    var v := ThirdEnters(t, t);
    SafelyIsReached(s, t, v);
  }

  /**
   The un-claim in the exit without a payment method is unconditional. From every open booking, a run in which it hits a
   booking that another request has paid in full and CONFIRMED: the booking is open again, with the money kept.
   */
  lemma {:induction false} ConfirmedCanBeReopened(s: State)
    requires Initial(s) && s.price > 0
    ensures exists c, u ::
              && Reaches(AllowedStep, s, c) && c.status.Confirmed? && PaidIn(c) == s.price
              && Reaches(AllowedStep, c, u) && u.status.CheckoutPending? && PaidIn(u) == s.price && AllReturned(u)
              && |u.payments| == 1
  {
    hide Reaches, WalletInv, CapturedHolds;
    InitiallyNothing(s);
    NothingCaptured(s.ledger.holds, s.booking);
    ReachesItself(AllowedStep, s);
    var t := ClaimsTooEarly(s, s, 0, false, 0, true);
    ReachesItself(SafeStep, t);
    var c := Moves(t, t, 1, CALM);
    assert c.threads[1].phase == Funded(0, None);
    c := ThirdEnters(t, c);
    c := PayByCard(t, c, 2);
    OneRow(c.payments);
    SafelyIsReached(s, t, c);
    ReachesItself(SafeStep, c);
    var u := Moves(c, c, 1, CALM);
    assert u.status.CheckoutPending? && u.threads[1].phase.Unclaimed?;
    u := Moves(c, u, 1, CALM);
    ReachesItself(AllowedStep, c);
    SafelyIsReached(c, c, u);
  }

  /**
   Failing a booking is unconditional as well. From every open booking, a run in which the slot is taken for one request
   because another one has got it, been paid in full and CONFIRMED: the booking ends FAILED, with the money kept.
   */
  lemma {:induction false} ConfirmedCanBeFailed(s: State)
    requires Initial(s) && s.price > 0
    ensures exists c, u ::
              && Reaches(AllowedStep, s, c) && c.status.Confirmed? && PaidIn(c) == s.price
              && Reaches(AllowedStep, c, u) && u.status.Failed? && PaidIn(u) == s.price && AllReturned(u)
              && |u.payments| == 1
  {
    hide Reaches, WalletInv, CapturedHolds, Available, Apply;
    InitiallyNothing(s);
    NothingCaptured(s.ledger.holds, s.booking);
    ReachesItself(AllowedStep, s);
    ReachesItself(SafeStep, s);
    var f := Fund(s, s, s.price);
    SafelyIsReached(s, s, f);
    var t := ClaimsTooEarly(s, f, s.price, false, 0, true);
    ReachesItself(SafeStep, t);
    var c := ThirdEnters(t, t);
    c := PayByCard(t, c, 2);
    OneRow(c.payments);
    SafelyIsReached(s, t, c);
    var u := LosesTheSlot(c, 1);
  }

  /** A request that pays by wallet meets a slot that is taken. */
  lemma {:induction false} LosesTheSlot(c: State, i: nat) returns (u: State)
    requires i < |c.threads| && c.threads[i].phase.Claimed? && c.price > 0 && WalletInv(c.ledger)
    requires c.threads[i].apply == c.price <= Available(c.ledger, c.wallet)
    requires CapturedHolds(c.ledger.holds, c.booking) == 0
    ensures Reaches(AllowedStep, c, u) && u == At(c.(ledger := u.ledger, status := Failed), i, Returned)
    ensures CapturedHolds(u.ledger.holds, c.booking) == 0
  {
    hide Reaches, WalletInv, CapturedHolds, Available, Apply, Release;
    var h := |c.ledger.holds|;
    ReachesItself(SafeStep, c);
    var r := ReserveAll(c, c, i);
    u := Moves(c, r, i, World(Capturable, SlotUnavailable, true, false));
    ReleaseIsRelease(r.ledger, h);
    AtTwice(c.(ledger := u.ledger, status := Failed), i, Ready(Some(h), None), Returned);
    CapturedSnoc(c.ledger.holds, Hold(c.wallet, c.booking, c.price, HoldStatus.Released), c.booking);
    assert u.ledger.holds == c.ledger.holds + [Hold(c.wallet, c.booking, c.price, HoldStatus.Released)];
    ReachesItself(AllowedStep, c);
    SafelyIsReached(c, c, u);
  }

  lemma {:induction false} ReleaseIsRelease(l: Ledger, h: nat)
    requires h < |l.holds| && l.holds[h].status.Active?
    ensures Release(l, Some(h)).holds == l.holds[h := l.holds[h].(status := HoldStatus.Released)]
  {
  }

  // ---------------------------------------------------------------------
  // Claims while a hold is being given back
  // ---------------------------------------------------------------------

  /**
   An open booking on which a first request has reserved one cent, met an exception and reopened the booking, but not
   given the cent back; a second one, with a card, has claimed.
   */
  lemma {:induction false} ClaimsBeforeGivenBack(s: State) returns (t: State)
    requires Initial(s) && s.price > 1 && Available(s.ledger, s.wallet) > 1
    ensures Reaches(AllowedStep, s, t) && t.status.PaymentPending? && t.payments == []
    ensures t.threads == [Thread(1, true, false, Reverted(|s.ledger.holds|)), Thread(1, true, false, Claimed)]
    ensures t.ledger.holds == s.ledger.holds + [Hold(s.wallet, s.booking, 1, HoldStatus.Active)]
    ensures Available(t.ledger, t.wallet) > 0 && t.price == s.price && t.booking == s.booking && t.wallet == s.wallet
  {
    hide Reaches, WalletInv, Available, Apply;
    var h := |s.ledger.holds|;
    ReachesItself(SafeStep, s);
    var u := Then(s, s, Request(1, true));
    u := Then(s, u, Request(1, true));
    u := Enter(s, u, 0);
    u := Reserve(s, u, 0);
    u := Moves(s, u, 0, FAILING);
    assert u.threads[0].phase == Unwinding(Some(h)) && u.status.PaymentPending?;
    u := Moves(s, u, 0, CALM);
    assert u.threads[0].phase == Reverted(h) && u.status.CheckoutPending?;
    u := Moves(s, u, 1, CALM);
    ReachesItself(AllowedStep, s);
    SafelyIsReached(s, s, u);
    ReachesNext(AllowedStep, s, u, Go(1, CALM));
    t := AllowedStep(u, Go(1, CALM));
  }

  predicate TwoHoldsActive(s: State) {
    exists a, b :: 0 <= a < b < |s.ledger.holds| && s.ledger.holds[a].booking == s.ledger.holds[b].booking == s.booking
                   && s.ledger.holds[a].status.Active? && s.ledger.holds[b].status.Active?
  }

  /**
   The catch block reopens the booking before it gives the hold back. Whoever claims in between and reserves makes two
   holds active for one booking.
   */
  lemma {:induction false} HalfUnwindLeavesTwoHolds(s: State, e: Event, o: Owner, loose: set<nat>, h: nat)
    requires InvWith(s, o, loose) && Claims(s, e) && h in loose && s.price > 0
    requires s.threads[e.thread].apply > 0 && Available(s.ledger, s.wallet) > 0
    ensures exists u :: Reaches(SafeStep, Step(s, e), u) && TwoHoldsActive(u)
  {
    hide Reaches, WalletInv, InvWith, Available, Apply;
    BeforeClaim(s, e, o, loose);
    var t := Step(s, e);
    ReachesItself(SafeStep, t);
    var u := Reserve(t, t, e.thread);
    assert u.ledger.holds[h] == s.ledger.holds[h] && u.ledger.holds[|s.ledger.holds|].status.Active?;
  }

  /**
   So from every open booking with two cents to reserve, a run with two active holds, of which a webhook would find only
   one.
   */
  lemma {:induction false} TwoHoldsAreReachable(s: State)
    requires Initial(s) && s.price > 1 && Available(s.ledger, s.wallet) > 1
    ensures exists t :: Reaches(AllowedStep, s, t) && TwoHoldsActive(t)
  {
    hide Reaches, WalletInv, Available, Apply;
    var h := |s.ledger.holds|;
    var t := ClaimsBeforeGivenBack(s);
    ReachesItself(SafeStep, t);
    var u := Reserve(t, t, 1);
    SafelyIsReached(s, t, u);
    assert u.ledger.holds[h].status.Active? && u.ledger.holds[h + 1].status.Active?;
  }

  /** The oldest active hold of the booking is the one found, when none before it is active. */
  lemma {:induction false} FindsOldest(holds: seq<Hold>, booking: nat, h: nat)
    requires h < |holds| && holds[h].booking == booking && holds[h].status.Active?
    requires forall k :: 0 <= k < h && holds[k].booking == booking ==> !holds[k].status.Active?
    ensures FindActive(holds, booking) == Some(h)
  {
    var n := |holds| - 1;
    if h < n { FindsOldest(holds[..n], booking, h); }
  }

  /** A finished hold is captured without effect. */
  lemma {:induction false} CapturesNothing(l: Ledger, h: nat)
    requires h < |l.holds| && !l.holds[h].status.Active?
    ensures Apply(l, CaptureHold(h)) == (l, Done)
  {
  }

  /**
   From every open booking with two cents to reserve, a run that confirms it although one cent less than its price was
   captured: the webhook finds the hold that the first request is giving back, and capturing it then takes nothing.
   */
  lemma {:induction false} ConfirmedCanBeUnderpaid(s: State)
    requires Initial(s) && s.price > 1 && Available(s.ledger, s.wallet) > 1
    ensures exists u ::
              Reaches(AllowedStep, s, u) && u.status.Confirmed? && PaidIn(u) == u.price - 1 && |u.payments| == 1
  {
    hide Reaches, WalletInv, CapturedHolds, Available, Apply, FindActive, Release;
    InitiallyNothing(s);
    var h := |s.ledger.holds|;
    var t := ClaimsBeforeGivenBack(s);
    ReachesItself(SafeStep, t);
    var u := Reserve(t, t, 1);
    u := Moves(t, u, 1, CHALLENGED);
    assert u.payments == [PaymentRow(s.price - 1, RequiresAction)] && u.threads[0].phase == Reverted(h);
    FindsOldest(u.ledger.holds, u.booking, h);
    u := Then(t, u, CapturableWebhook(0));
    assert u.threads[2].phase == Ready(Some(h), Some(0)) && u.threads[0].phase == Reverted(h);
    ReleaseIsRelease(u.ledger, h);
    u := Moves(t, u, 0, CALM);
    CapturesNothing(u.ledger, h);
    u := Conclude(t, u, 2, Some(h), Some(0));
    SafelyIsReached(s, t, u);
    NothingCaptured(u.ledger.holds, u.booking);
    OneRow(u.payments);
  }
}
