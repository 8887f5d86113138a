/**
 What the requests of a FULL checkout can do when they are given the right answers, as states that safe steps reach:
 the building blocks of the runs in CheckoutRaces.
 */
module CheckoutMoves {
  import opened Common
  import opened Reachability
  import opened WalletLedger
  import opened WalletProofs
  import opened WalletEffects
  import opened Bookings
  import opened CheckoutProtocol
  import opened CheckoutProofs
  import opened CheckoutTheorems

  // ---------------------------------------------------------------------
  // Reaching states by safe steps, and by any steps
  // ---------------------------------------------------------------------

  lemma {:induction false} PlayedSafely(s: State, events: seq<Event>)
    ensures Reaches(AllowedStep, s, Play(SafeStep, s, events))
  {
    hide Reaches, Step, Allowed, Safe;
    if events == [] {
      ReachesItself(AllowedStep, s);
    } else {
      var n := |events| - 1;
      PlayedSafely(s, events[..n]);
      ReachesNext(AllowedStep, s, Play(SafeStep, s, events[..n]), events[n]);
    }
  }

  lemma {:induction false} SafelyIsReached(s: State, t: State, u: State)
    requires Reaches(AllowedStep, s, t) && Reaches(SafeStep, t, u)
    ensures Reaches(AllowedStep, s, u)
  {
    var events: seq<Event> :| Play(SafeStep, t, events) == u;
    PlayedSafely(t, events);
    ReachesOn(AllowedStep, s, t, u);
  }

  /** Whatever safe steps reach from a sound state is sound. */
  lemma {:induction false} PlayedSafelyKeeps(s: State, events: seq<Event>, o: Owner, loose: set<nat>)
    returns (o': Owner, loose': set<nat>)
    requires InvWith(s, o, loose)
    ensures InvWith(Play(SafeStep, s, events), o', loose')
  {
    hide InvWith, Step, Allowed, Safe;
    o', loose' := o, loose;
    if events != [] {
      var n := |events| - 1;
      o', loose' := PlayedSafelyKeeps(s, events[..n], o, loose);
      var t := Play(SafeStep, s, events[..n]);
      if Allowed(t, events[n]) && Safe(t, events[n]) { o', loose' := StepKeeps(t, events[n], o', loose'); }
    }
  }

  lemma {:induction false} Then(s: State, t: State, e: Event) returns (u: State)
    requires Reaches(SafeStep, s, t) && Allowed(t, e) && Safe(t, e)
    ensures u == Step(t, e) && Reaches(SafeStep, s, u)
  {
    hide Reaches, Step, Allowed, Safe;
    u := Step(t, e);
    ReachesNext(SafeStep, s, t, e);
  }

  /** One call of a request that is not about to claim. */
  lemma {:induction false} Moves(s: State, t: State, i: nat, world: World) returns (u: State)
    requires Reaches(SafeStep, s, t) && i < |t.threads| && !t.threads[i].phase.Eligible?
    ensures u == GoStep(t, i, world) && Reaches(SafeStep, s, u)
  {
    hide Reaches, GoStep;
    u := Then(s, t, Go(i, world));
  }

  // ---------------------------------------------------------------------
  // What one request can do, told the right answers
  // ---------------------------------------------------------------------

  const CALM := World(Capturable, Created, true, false)
  const FAILING := World(Throws, Created, true, true)
  const CHALLENGED := World(NeedsAction, Created, true, false)

  lemma {:induction false} AtTwice(s: State, i: nat, a: Phase, b: Phase)
    requires i < |s.threads|
    ensures At(At(s, i, a), i, b) == At(s, i, b)
  {
    assert s.threads[i := s.threads[i].(phase := a)][i := s.threads[i].(phase := b)]
        == s.threads[i := s.threads[i].(phase := b)];
  }

  /** A request that has arrived claims the open booking. */
  lemma {:induction false} Enter(s: State, t: State, i: nat) returns (u: State)
    requires Reaches(SafeStep, s, t) && t.status.CheckoutPending? && i < |t.threads| && t.threads[i].phase.Start?
    requires forall j :: 0 <= j < |t.threads| ==>
               !t.threads[j].phase.Unclaimed? && (t.threads[j].phase.Reverted? ==> !t.threads[i].hasCard)
    ensures Reaches(SafeStep, s, u) && u == At(t.(status := PaymentPending), i, Claimed)
  {
    hide Reaches;
    var a := Moves(s, t, i, CALM);
    assert a == At(t, i, Eligible);
    u := Then(s, a, Go(i, CALM));
    AtTwice(t.(status := PaymentPending), i, Eligible, Claimed);
  }

  /** A request without wallet and card gets as far as the first half of its exit. */
  lemma {:induction false} LeaveWithoutCard(s: State, t: State, i: nat) returns (u: State)
    requires Reaches(SafeStep, s, t) && i < |t.threads| && t.threads[i].phase.Claimed? && t.price > 0
    requires t.threads[i].apply <= 0 && !t.threads[i].hasCard
    ensures Reaches(SafeStep, s, u) && u == At(t.(status := CheckoutPending), i, Unclaimed)
  {
    hide Reaches;
    var a := Moves(s, t, i, CALM);
    assert a == At(t, i, Funded(0, None));
    u := Moves(s, a, i, CALM);
    AtTwice(t.(status := CheckoutPending), i, Funded(0, None), Unclaimed);
  }

  /** Any request that has claimed can leave again without a trace, and reopens the booking. */
  lemma {:induction false} GiveUp(s: State, t: State, i: nat) returns (u: State)
    requires Reaches(SafeStep, s, t) && i < |t.threads| && t.threads[i].phase.Claimed? && t.price > 0
    requires t.status.PaymentPending?
    ensures Reaches(SafeStep, s, u) && u == At(t.(status := CheckoutPending), i, Returned)
  {
    hide Reaches;
    if t.threads[i].apply <= 0 && !t.threads[i].hasCard {
      u := LeaveWithoutCard(s, t, i);
      u := Moves(s, u, i, CALM);
      AtTwice(t.(status := CheckoutPending), i, Unclaimed, Returned);
    } else {
      u := ThrowInCheckout(s, t, i);
      u := Moves(s, u, i, CALM);
      AtTwice(t.(status := CheckoutPending), i, Unwinding(None), Returned);
    }
  }

  lemma {:induction false} ThrowInCheckout(s: State, t: State, i: nat) returns (u: State)
    requires Reaches(SafeStep, s, t) && i < |t.threads| && t.threads[i].phase.Claimed? && t.price > 0
    requires t.threads[i].apply > 0 || t.threads[i].hasCard
    ensures Reaches(SafeStep, s, u) && u == At(t, i, Unwinding(None))
  {
    hide Reaches;
    u := Moves(s, t, i, FAILING);
    if t.threads[i].apply <= 0 {
      assert u == At(t, i, Funded(0, None));
      u := Moves(s, u, i, FAILING);
      AtTwice(t, i, Funded(0, None), Unwinding(None));
    }
  }

  /** From a capture leg on, everything answered well. */
  lemma {:induction false} Conclude(s: State, t: State, i: nat, hold: Option<nat>, pay: Option<nat>) returns (u: State)
    requires Reaches(SafeStep, s, t) && i < |t.threads| && t.threads[i].phase == Ready(hold, pay)
    requires hold.Some? ==> Apply(t.ledger, CaptureHold(hold.value)).1 == Done
    ensures Reaches(SafeStep, s, u)
    ensures var ledger := if hold.Some? then Apply(t.ledger, CaptureHold(hold.value)).0 else t.ledger;
            var payments := SetPay(t.payments, pay, Succeeded);
            u == At(t.(ledger := ledger, payments := payments, status := Confirmed), i, Returned)
  {
    hide Reaches, Apply;
    u := Moves(s, t, i, CALM);
    assert u == At(t, i, LegacyDone(hold, pay));
    var payments := SetPay(t.payments, pay, Succeeded);
    u := Moves(s, u, i, CALM);
    AtTwice(t.(payments := payments), i, LegacyDone(hold, pay), CardDone(hold, pay));
    assert u == At(t.(payments := payments), i, CardDone(hold, pay));
    var ledger := if hold.Some? then Apply(t.ledger, CaptureHold(hold.value)).0 else t.ledger;
    var t' := t.(ledger := ledger, payments := payments);
    u := Moves(s, u, i, CALM);
    AtTwice(t', i, CardDone(hold, pay), WalletDone(hold, pay));
    assert u == At(t', i, WalletDone(hold, pay));
    u := Moves(s, u, i, CALM);
    AtTwice(t'.(status := Confirmed), i, WalletDone(hold, pay), Returned);
  }

  /** A request without wallet pays the whole price by card. */
  lemma {:induction false} PayByCard(s: State, t: State, i: nat) returns (u: State)
    requires Reaches(SafeStep, s, t) && i < |t.threads| && t.threads[i].phase.Claimed? && t.price > 0
    requires t.threads[i].apply <= 0 && t.threads[i].hasCard
    ensures Reaches(SafeStep, s, u)
    ensures u == At(t.(payments := t.payments + [PaymentRow(t.price, Succeeded)], status := Confirmed), i, Returned)
  {
    hide Reaches;
    var n := |t.payments|;
    u := Moves(s, t, i, CALM);
    assert u == At(t, i, Funded(0, None));
    var t' := t.(payments := t.payments + [PaymentRow(t.price, PaymentStatus.Authorized)]);
    u := Moves(s, u, i, CALM);
    AtTwice(t', i, Funded(0, None), Ready(None, Some(n)));
    assert u == At(t', i, Ready(None, Some(n)));
    u := Conclude(s, u, i, None, Some(n));
    assert SetPay(t'.payments, Some(n), Succeeded) == t.payments + [PaymentRow(t.price, Succeeded)];
    AtTwice(t'.(payments := t.payments + [PaymentRow(t.price, Succeeded)], status := Confirmed), i,
            Ready(None, Some(n)), Returned);
  }

  /** How much of the wallet a request gets: its wish, but no more than is available and no more than the price. */
  function WalletPart(t: State, i: nat): int
    requires i < |t.threads|
  {
    Min(Min(t.threads[i].apply, Available(t.ledger, t.wallet)), t.price)
  }

  /** A request reserves its part of the wallet. */
  lemma {:induction false} Reserve(s: State, t: State, i: nat) returns (u: State)
    requires Reaches(SafeStep, s, t) && i < |t.threads| && t.threads[i].phase.Claimed? && WalletPart(t, i) > 0
    ensures var h, part := |t.ledger.holds|, WalletPart(t, i);
            && Reaches(SafeStep, s, u)
            && u == At(t.(ledger := Apply(t.ledger, CreateHold(t.wallet, t.booking, part)).0), i, Funded(part, Some(h)))
            && u.ledger.holds == t.ledger.holds + [Hold(t.wallet, t.booking, part, HoldStatus.Active)]
            && Available(u.ledger, t.wallet) == Available(t.ledger, t.wallet) - part
  {
    hide Reaches, Available, Sum, Reserved;
    var h, part := |t.ledger.holds|, WalletPart(t, i);
    HoldReserves(t.ledger, t.wallet, t.booking, part);
    var ledger := Apply(t.ledger, CreateHold(t.wallet, t.booking, part)).0;
    AvailableFollows(t.ledger, ledger, t.wallet, t.wallet, part);
    u := Moves(s, t, i, CALM);
    assert u == At(t, i, BalanceRead(part));
    u := Moves(s, u, i, CALM);
    AtTwice(t.(ledger := ledger), i, BalanceRead(part), Funded(part, Some(h)));
  }

  /** A request that wants the whole price from the wallet reserves it and needs no card. */
  lemma {:induction false} ReserveAll(s: State, t: State, i: nat) returns (u: State)
    requires Reaches(SafeStep, s, t) && i < |t.threads| && t.threads[i].phase.Claimed? && t.price > 0
    requires t.threads[i].apply == t.price && t.price <= Available(t.ledger, t.wallet)
    ensures var h := |t.ledger.holds|;
            var ledger := Apply(t.ledger, CreateHold(t.wallet, t.booking, t.price)).0;
            && Reaches(SafeStep, s, u) && u == At(t.(ledger := ledger), i, Ready(Some(h), None))
            && u.ledger.holds == t.ledger.holds + [Hold(t.wallet, t.booking, t.price, HoldStatus.Active)]
            && Available(u.ledger, t.wallet) == Available(t.ledger, t.wallet) - t.price
  {
    hide Reaches, Available, Apply;
    var h := |t.ledger.holds|;
    u := Reserve(s, t, i);
    u := Moves(s, u, i, CALM);
    AtTwice(t.(ledger := Apply(t.ledger, CreateHold(t.wallet, t.booking, t.price)).0), i,
            Funded(t.price, Some(h)), Ready(Some(h), None));
  }

  /** It pays the whole price from the wallet; what is available falls by the price and by nothing else. */
  lemma {:induction false} PayByWallet(s: State, t: State, i: nat) returns (u: State)
    requires Reaches(SafeStep, s, t) && i < |t.threads| && t.threads[i].phase.Claimed? && t.price > 0
    requires WalletInv(t.ledger) && t.threads[i].apply == t.price && t.price <= Available(t.ledger, t.wallet)
    ensures Reaches(SafeStep, s, u) && WalletInv(u.ledger)
    ensures u == At(t.(ledger := u.ledger, status := Confirmed), i, Returned)
    ensures u.ledger.holds == t.ledger.holds + [Hold(t.wallet, t.booking, t.price, HoldStatus.Captured)]
    ensures Available(u.ledger, t.wallet) == Available(t.ledger, t.wallet) - t.price
  {
    hide Reaches, Available, Sum, Reserved, WalletInv;
    var h := |t.ledger.holds|;
    u := ReserveAll(s, t, i);
    var reserved := u.ledger;
    ApplyKeepsInv(t.ledger, CreateHold(t.wallet, t.booking, t.price));
    CaptureSpends(reserved, h);
    CaptureMarks(reserved, h);
    ApplyKeepsInv(reserved, CaptureHold(h));
    assert SetPay(t.payments, None, Succeeded) == t.payments;
    u := Conclude(s, u, i, Some(h), None);
    AtTwice(t.(ledger := u.ledger, status := Confirmed), i, Ready(Some(h), None), Returned);
  }

  lemma {:induction false} CaptureMarks(l: Ledger, h: nat)
    requires WalletInv(l) && h < |l.holds| && l.holds[h].status.Active?
    ensures Apply(l, CaptureHold(h)).1 == Done
    ensures Apply(l, CaptureHold(h)).0.holds == l.holds[h := l.holds[h].(status := HoldStatus.Captured)]
  {
    hide WalletInv, Sum, Reserved, Greedy, RowsOf;
    CaptureIsTotal(l, h);
  }

  /** An administrator offers credits. */
  lemma {:induction false} Fund(s: State, t: State, amount: int) returns (u: State)
    requires Reaches(SafeStep, s, t) && WalletInv(t.ledger) && amount > 0
    ensures Reaches(SafeStep, s, u) && u == t.(ledger := u.ledger) && u.ledger.holds == t.ledger.holds
    ensures WalletInv(u.ledger) && Available(u.ledger, t.wallet) >= amount
  {
    hide Reaches, Available, Sum, Reserved, WalletInv, RowsOf;
    var op := CreditAdminOp(t.wallet, amount);
    AdminCredits(t.ledger, t.wallet, amount);
    AvailableMoves(t.ledger, Apply(t.ledger, op).0, t.wallet, ByOrigin(0, 0, amount), 0);
    AvailableNonNegative(t.ledger, t.wallet);
    ApplyKeepsInv(t.ledger, op);
    u := Then(s, t, OtherWalletOp(op));
  }

  /** An administrator takes away what is available. */
  lemma {:induction false} Drain(s: State, t: State) returns (u: State)
    requires Reaches(SafeStep, s, t) && WalletInv(t.ledger)
    ensures Reaches(SafeStep, s, u) && u == t.(ledger := u.ledger) && u.ledger.holds == t.ledger.holds
    ensures WalletInv(u.ledger) && Available(u.ledger, t.wallet) == 0
  {
    hide Reaches, Available, Sum, Reserved, WalletInv, RowsOf, Greedy;
    var a := Available(t.ledger, t.wallet);
    AvailableNonNegative(t.ledger, t.wallet);
    u := t;
    if a > 0 {
      var op := DebitAdmin(t.wallet, a);
      var l' := Apply(t.ledger, op).0;
      DebitSpends(t.ledger, Purpose(t.wallet, Adjustment, None, None, None), a);
      var d := Minus(Balance(l', t.wallet), Balance(t.ledger, t.wallet));
      AvailableMoves(t.ledger, l', t.wallet, d, 0);
      ApplyKeepsInv(t.ledger, op);
      u := Then(s, t, OtherWalletOp(op));
    }
  }
}
