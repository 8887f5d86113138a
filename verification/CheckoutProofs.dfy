/**
 The invariant of the FULL checkout, who is responsible for the booking at any time, and its preservation by every
 step.
 */
module CheckoutProofs {
  import opened Common
  import opened WalletLedger
  import opened WalletProofs
  import opened Bookings
  import opened CheckoutProtocol

  // ---------------------------------------------------------------------
  // The invariant
  // ---------------------------------------------------------------------

  /** Between its claim and its exit. */
  predicate InCheckout(ph: Phase) {
    !(ph.Start? || ph.Eligible? || ph.Returned?)
  }

  /** In checkout, and not merely giving a hold back after it has reopened the booking. */
  predicate Responsible(ph: Phase) { InCheckout(ph) && !ph.Reverted? }

  /** Who is responsible for the booking now, and which hold belongs to that. */
  datatype Owner = Nobody(live: Option<nat>) | ByThread(i: nat) | Parked(live: Option<nat>)

  /** The holds in `loose` are active and about to be given back; no other is active or captured, except `live`. */
  predicate OnlyLive(holds: seq<Hold>, booking: nat, live: Option<nat>, loose: set<nat>) {
    && (live.Some? ==> live.value < |holds| && holds[live.value].booking == booking && live.value !in loose)
    && (forall h :: h in loose ==>
          h < |holds| && holds[h].booking == booking && holds[h].status.Active? && holds[h].amount > 0)
    && forall k: nat :: k < |holds| && holds[k].booking == booking && !holds[k].status.Released? ==>
         live == Some(k) || k in loose
  }

  function LiveAmount(holds: seq<Hold>, live: Option<nat>): int {
    if live.Some? && live.value < |holds| then holds[live.value].amount else 0
  }

  predicate LiveIs(holds: seq<Hold>, live: Option<nat>, st: HoldStatus) {
    live.Some? ==> live.value < |holds| && holds[live.value].status == st
  }

  /** Both legs together are the price; `pay` is the only payment row, and the hold has the given status. */
  predicate Legs(s: State, hold: Option<nat>, pay: Option<nat>, st: HoldStatus, loose: set<nat>) {
    && OnlyLive(s.ledger.holds, s.booking, hold, loose) && LiveIs(s.ledger.holds, hold, st)
    && (if pay.None? then s.payments == [] && LiveAmount(s.ledger.holds, hold) == s.price
        else pay == Some(0) && |s.payments| == 1 && LiveAmount(s.ledger.holds, hold) + s.payments[0].amount == s.price)
  }

  predicate NotCaptured(s: State) { forall p :: p in s.payments ==> !p.status.Succeeded? }

  predicate NotHeld(s: State) { forall p :: p in s.payments ==> !p.status.Authorized? }

  predicate NoneWaiting(s: State) { forall p :: p in s.payments ==> !p.status.RequiresAction? }

  /** A reservation that can still be given back, and is not empty. */
  predicate Backed(holds: seq<Hold>, hold: Option<nat>) {
    LiveIs(holds, hold, HoldStatus.Active) && (hold.Some? ==> LiveAmount(holds, hold) > 0)
  }

  /** What holds while a request in this phase is responsible for the booking. */
  predicate PhaseOk(s: State, ph: Phase, loose: set<nat>) {
    var holds := s.ledger.holds;
    match ph
    case Claimed => OnlyLive(holds, s.booking, None, loose) && s.payments == []
    case BalanceRead(applied) =>
      OnlyLive(holds, s.booking, None, loose) && s.payments == [] && 0 <= applied <= s.price
    case Funded(applied, hold) =>
      && OnlyLive(holds, s.booking, hold, loose) && Backed(holds, hold)
      && s.payments == [] && LiveAmount(holds, hold) == applied
    case Ready(hold, pay) => Legs(s, hold, pay, HoldStatus.Active, loose) && NotCaptured(s) && NoneWaiting(s)
    case LegacyDone(hold, pay) => Legs(s, hold, pay, HoldStatus.Active, loose) && NotCaptured(s) && NoneWaiting(s)
    case CardDone(hold, pay) =>
      Legs(s, hold, pay, HoldStatus.Active, loose) && (pay.Some? ==> s.payments[0].status.Succeeded?)
    case WalletDone(hold, pay) =>
      Legs(s, hold, pay, HoldStatus.Captured, loose) && (pay.Some? ==> s.payments[0].status.Succeeded?)
    case Unwinding(hold) =>
      OnlyLive(holds, s.booking, hold, loose) && Backed(holds, hold) && s.payments == []
    case Unclaimed => OnlyLive(holds, s.booking, None, loose) && s.payments == []
    case _ => false
  }

  ghost predicate RestOk(s: State, live: Option<nat>, loose: set<nat>) {
    && OnlyLive(s.ledger.holds, s.booking, live, loose) && NoneWaiting(s) && |s.payments| <= 1
    && match s.status
       case CheckoutPending => live == None && s.payments == []
       case Failed => live == None && NotCaptured(s) && NotHeld(s)
       case ManualReview => NotCaptured(s) && exists pay :: Legs(s, live, pay, HoldStatus.Active, loose)
       case Confirmed => exists pay :: PaidBy(s, live, pay, loose)
       case PaymentPending => false
  }

  /** Fully captured through these two legs. */
  predicate PaidBy(s: State, live: Option<nat>, pay: Option<nat>, loose: set<nat>) {
    Legs(s, live, pay, HoldStatus.Captured, loose) && (pay.Some? ==> s.payments[0].status.Succeeded?)
  }

  predicate ParkedOk(s: State, live: Option<nat>) {
    Legs(s, live, Some(0), HoldStatus.Active, {}) && s.payments[0].status.RequiresAction?
  }

  predicate GivesBack(threads: seq<Thread>, h: nat) {
    exists i :: 0 <= i < |threads| && threads[i].phase == Reverted(h)
  }

  /** The holds in `loose` are each given back by one request, and no request gives back another. */
  ghost predicate GivenBack(threads: seq<Thread>, loose: set<nat>) {
    && (forall h :: h in loose ==> GivesBack(threads, h))
    && (forall i :: 0 <= i < |threads| && threads[i].phase.Reverted? ==> threads[i].phase.open in loose)
    && forall i, j :: 0 <= i < j < |threads| && threads[i].phase.Reverted? && threads[j].phase.Reverted? ==>
         threads[i].phase.open != threads[j].phase.open
  }

  /** While a hold is being given back no payment waits, and a responsible request has no card. */
  predicate Apart(s: State, o: Owner, loose: set<nat>) {
    match o
    case Nobody(_) => true
    case ByThread(i) => i < |s.threads| && (loose == {} || !s.threads[i].hasCard)
    case Parked(_) => loose == {}
  }

  ghost predicate InvWith(s: State, o: Owner, loose: set<nat>) {
    && WalletInv(s.ledger) && s.price >= 0
    && (forall i: nat :: i < |s.threads| ==> (Responsible(s.threads[i].phase) <==> o == ByThread(i)))
    && GivenBack(s.threads, loose) && Apart(s, o, loose)
    && (if o.ByThread? && s.threads[o.i].phase.Unclaimed? then s.status.CheckoutPending?
        else s.status.PaymentPending? <==> !o.Nobody?)
    && match o
       case Nobody(live) => RestOk(s, live, loose)
       case ByThread(i) => PhaseOk(s, s.threads[i].phase, loose)
       case Parked(live) => ParkedOk(s, live)
  }

  // ---------------------------------------------------------------------
  // Holds of the booking
  // ---------------------------------------------------------------------

  lemma {:induction false} ReleaseLive(l: Ledger, booking: nat, live: Option<nat>, loose: set<nat>)
    requires WalletInv(l) && OnlyLive(l.holds, booking, live, loose) && LiveIs(l.holds, live, HoldStatus.Active)
    ensures WalletInv(Release(l, live)) && OnlyLive(Release(l, live).holds, booking, None, loose)
  {
    hide WalletInv;
    if live.Some? { ApplyKeepsInv(l, ReleaseHold(live.value)); }
  }

  /** A capture of the live hold always succeeds and leaves it captured for its whole amount. */
  lemma {:induction false} CaptureLive(l: Ledger, booking: nat, h: nat, loose: set<nat>)
    requires WalletInv(l) && OnlyLive(l.holds, booking, Some(h), loose) && LiveIs(l.holds, Some(h), HoldStatus.Active)
    ensures var (l', r) := Apply(l, CaptureHold(h));
            && r == Done && WalletInv(l') && l'.holds == l.holds[h := l.holds[h].(status := HoldStatus.Captured)]
            && OnlyLive(l'.holds, booking, Some(h), loose)
  {
    hide WalletInv, Sum, Reserved, Greedy, RowsOf;
    CaptureIsTotal(l, h);
    ApplyKeepsInv(l, CaptureHold(h));
  }

  lemma {:induction false} OpenLive(l: Ledger, w: nat, booking: nat, amount: int, loose: set<nat>)
    requires WalletInv(l) && OnlyLive(l.holds, booking, None, loose) && amount > 0
    ensures var (l', r) := Apply(l, CreateHold(w, booking, amount));
            && WalletInv(l')
            && (r == Done ==> l'.holds == l.holds + [Hold(w, booking, amount, HoldStatus.Active)]
                              && OnlyLive(l'.holds, booking, Some(|l.holds|), loose))
            && (r != Done ==> l' == l)
  {
    hide WalletInv, Sum, Reserved;
    ApplyKeepsInv(l, CreateHold(w, booking, amount));
  }

  lemma {:induction false} FindActiveIsLive(holds: seq<Hold>, booking: nat, live: Option<nat>)
    requires OnlyLive(holds, booking, live, {}) && LiveIs(holds, live, HoldStatus.Active)
    ensures FindActive(holds, booking) == live
  {
    hide FindActive;
    var r := FindActive(holds, booking);
    if live.Some? { assert holds[live.value] in holds; }
  }

  // ---------------------------------------------------------------------
  // What stays when the ledger changes elsewhere
  // ---------------------------------------------------------------------

  /** The booking has no new holds, those in `gone` are released, and its other holds are as before. */
  predicate Carries(holds: seq<Hold>, holds': seq<Hold>, booking: nat, gone: set<nat>) {
    && |holds| <= |holds'|
    && (forall k: nat :: k < |holds| && holds[k].booking == booking ==>
          if k in gone then holds'[k] == holds[k].(status := HoldStatus.Released) else holds'[k] == holds[k])
    && (forall k: nat :: k < |holds'| && holds'[k].booking == booking ==> k < |holds| && holds[k].booking == booking)
  }

  /** Other traffic neither creates nor changes a hold of this booking. */
  lemma {:induction false} OthersCarry(l: Ledger, op: WalletLedger.Op, booking: nat)
    requires !TouchesBooking(l, op, booking)
    ensures Carries(l.holds, Apply(l, op).0.holds, booking, {})
  {
    hide Sum, Reserved, Greedy, Proportional, RowsOf;
  }

  lemma {:induction false} ReleaseCarries(l: Ledger, booking: nat, h: nat)
    requires WalletInv(l) && h < |l.holds| && l.holds[h].booking == booking && l.holds[h].status.Active?
    ensures WalletInv(Release(l, Some(h))) && Carries(l.holds, Release(l, Some(h)).holds, booking, {h})
  {
    hide WalletInv;
    ApplyKeepsInv(l, ReleaseHold(h));
  }

  lemma {:induction false} FrameLive(holds: seq<Hold>, holds': seq<Hold>, booking: nat, gone: set<nat>,
                                     live: Option<nat>, loose: set<nat>)
    requires Carries(holds, holds', booking, gone) && gone <= loose && OnlyLive(holds, booking, live, loose)
    ensures OnlyLive(holds', booking, live, loose - gone) && LiveAmount(holds', live) == LiveAmount(holds, live)
    ensures forall st :: LiveIs(holds, live, st) ==> LiveIs(holds', live, st)
  {
  }

  /** Only the ledger and the threads differ. */
  predicate SameBooking(s: State, t: State) { t == s.(ledger := t.ledger, threads := t.threads) }

  lemma {:induction false} FrameRest(s: State, t: State, gone: set<nat>, live: Option<nat>, loose: set<nat>)
    requires SameBooking(s, t) && Carries(s.ledger.holds, t.ledger.holds, s.booking, gone) && gone <= loose
    requires RestOk(s, live, loose)
    ensures RestOk(t, live, loose - gone)
  {
    hide Carries, OnlyLive, LiveIs, LiveAmount;
    FrameLive(s.ledger.holds, t.ledger.holds, s.booking, gone, live, loose);
    if s.status.Confirmed? {
      var pay :| PaidBy(s, live, pay, loose);
      assert PaidBy(t, live, pay, loose - gone);
    }
    if s.status.ManualReview? {
      var pay :| Legs(s, live, pay, HoldStatus.Active, loose);
      assert Legs(t, live, pay, HoldStatus.Active, loose - gone);
    }
  }

  function LegOf(ph: Phase): Option<nat> {
    match ph
    case Funded(_, h) => h
    case Ready(h, _) => h
    case LegacyDone(h, _) => h
    case CardDone(h, _) => h
    case WalletDone(h, _) => h
    case Unwinding(h) => h
    case Reverted(open) => Some(open)
    case _ => None
  }

  lemma {:induction false} FramePhase(s: State, t: State, gone: set<nat>, ph: Phase, loose: set<nat>)
    requires SameBooking(s, t) && Carries(s.ledger.holds, t.ledger.holds, s.booking, gone) && gone <= loose
    requires PhaseOk(s, ph, loose)
    ensures PhaseOk(t, ph, loose - gone)
  {
    hide Carries, OnlyLive, LiveIs, LiveAmount;
    FrameLive(s.ledger.holds, t.ledger.holds, s.booking, gone, LegOf(ph), loose);
  }

  lemma {:induction false} FrameParked(s: State, t: State, live: Option<nat>)
    requires SameBooking(s, t) && Carries(s.ledger.holds, t.ledger.holds, s.booking, {}) && ParkedOk(s, live)
    ensures ParkedOk(t, live)
  {
    hide Carries, OnlyLive, LiveIs, LiveAmount;
    var none: set<nat> := {};
    FrameLive(s.ledger.holds, t.ledger.holds, s.booking, none, live, none);
    assert none - none == none;
  }

  // ---------------------------------------------------------------------
  // Preservation
  // ---------------------------------------------------------------------

  lemma {:induction false} AvailableNonNegative(l: Ledger, w: nat)
    requires WalletInv(l)
    ensures Available(l, w) >= 0
  {
    hide Sum, Reserved;
    assert SolventAt(l, w);
  }

  /** A step of a request that is not giving a hold back leaves those that are. */
  lemma {:induction false} OthersGiveBack(threads: seq<Thread>, i: nat, ph: Phase, loose: set<nat>)
    requires GivenBack(threads, loose) && i < |threads| && !threads[i].phase.Reverted? && !ph.Reverted?
    ensures GivenBack(threads[i := threads[i].(phase := ph)], loose)
  {
    var threads' := threads[i := threads[i].(phase := ph)];
    forall h | h in loose ensures GivesBack(threads', h) {
      var j :| 0 <= j < |threads| && threads[j].phase == Reverted(h);
      assert threads'[j].phase == Reverted(h);
    }
  }

  lemma {:induction false} WalletStepKeeps(s: State, i: nat, world: World, o: Owner, loose: set<nat>)
    requires InvWith(s, o, loose) && i < |s.threads|
    requires s.threads[i].phase.Claimed? || s.threads[i].phase.BalanceRead?
    ensures o == ByThread(i) && InvWith(WalletStep(s, i, world), o, loose)
  {
    hide WalletInv, Apply, Available, GivenBack;
    assert Responsible(s.threads[i].phase);
    AvailableNonNegative(s.ledger, s.wallet);
    if s.threads[i].phase.BalanceRead? && s.threads[i].phase.applied > 0 {
      OpenLive(s.ledger, s.wallet, s.booking, s.threads[i].phase.applied, loose);
    }
    OthersGiveBack(s.threads, i, WalletStep(s, i, world).threads[i].phase, loose);
  }

  lemma {:induction false} CardStepKeeps(s: State, i: nat, applied: int, hold: Option<nat>, world: World, o: Owner,
                                         loose: set<nat>)
    returns (o': Owner)
    requires InvWith(s, o, loose) && i < |s.threads| && s.threads[i].phase == Funded(applied, hold)
    ensures InvWith(CardStep(s, i, applied, hold, world), o', loose)
  {
    hide WalletInv, Release, GivenBack;
    assert Responsible(s.threads[i].phase);
    ReleaseLive(s.ledger, s.booking, hold, loose);
    var s' := CardStep(s, i, applied, hold, world);
    OthersGiveBack(s.threads, i, s'.threads[i].phase, loose);
    o' := if InCheckout(s'.threads[i].phase) then o else if s'.status.PaymentPending? then Parked(hold)
      else Nobody(None);
  }

  lemma {:induction false} LegacyStepKeeps(s: State, i: nat, world: World, o: Owner, loose: set<nat>)
    returns (o': Owner)
    requires InvWith(s, o, loose) && i < |s.threads| && s.threads[i].phase.Ready?
    ensures InvWith(ProceedStep(s, i, world), o', loose)
  {
    hide WalletInv, Release, Apply, GivenBack;
    var ph := s.threads[i].phase;
    assert Responsible(ph);
    ReleaseLive(s.ledger, s.booking, ph.hold, loose);
    OthersGiveBack(s.threads, i, ProceedStep(s, i, world).threads[i].phase, loose);
    o' := if world.legacy.Created? then o else Nobody(if world.legacy.SlotUnavailable? then None else ph.hold);
    if world.legacy.Ambiguous? { assert Legs(ProceedStep(s, i, world), ph.hold, ph.pay, HoldStatus.Active, loose); }
  }

  lemma {:induction false} CardCaptureKeeps(s: State, i: nat, world: World, o: Owner, loose: set<nat>)
    returns (o': Owner)
    requires InvWith(s, o, loose) && i < |s.threads| && s.threads[i].phase.LegacyDone?
    ensures InvWith(ProceedStep(s, i, world), o', loose)
  {
    hide WalletInv, Release, Apply, GivenBack;
    var ph := s.threads[i].phase;
    assert Responsible(ph);
    OthersGiveBack(s.threads, i, ProceedStep(s, i, world).threads[i].phase, loose);
    o' := if ph.pay.Some? && !world.captured then Nobody(ph.hold) else o;
    if o'.Nobody? { assert Legs(ProceedStep(s, i, world), ph.hold, ph.pay, HoldStatus.Active, loose); }
  }

  /** The wallet leg cannot fail here, so a captured card is always followed by CONFIRMED. */
  lemma {:induction false} WalletCaptureKeeps(s: State, i: nat, world: World, o: Owner, loose: set<nat>)
    requires InvWith(s, o, loose) && i < |s.threads| && s.threads[i].phase.CardDone?
    ensures InvWith(ProceedStep(s, i, world), o, loose)
    ensures var ph := s.threads[i].phase; ProceedStep(s, i, world).threads[i].phase == WalletDone(ph.hold, ph.pay)
  {
    hide WalletInv, Release, Apply, GivenBack;
    var ph := s.threads[i].phase;
    assert Responsible(ph);
    if ph.hold.Some? { CaptureLive(s.ledger, s.booking, ph.hold.value, loose); }
    OthersGiveBack(s.threads, i, ProceedStep(s, i, world).threads[i].phase, loose);
  }

  lemma {:induction false} ConfirmKeeps(s: State, i: nat, world: World, o: Owner, loose: set<nat>)
    requires InvWith(s, o, loose) && i < |s.threads| && s.threads[i].phase.WalletDone?
    ensures InvWith(ProceedStep(s, i, world), Nobody(s.threads[i].phase.hold), loose)
  {
    hide WalletInv, Release, Apply, GivenBack;
    var ph := s.threads[i].phase;
    assert Responsible(ph);
    OthersGiveBack(s.threads, i, Returned, loose);
    assert PaidBy(ProceedStep(s, i, world), ph.hold, ph.pay, loose);
  }

  /** The catch block re-opens the booking; from then on its hold is loose. */
  lemma {:induction false} RevertKeeps(s: State, i: nat, world: World, o: Owner, loose: set<nat>)
    returns (loose': set<nat>)
    requires InvWith(s, o, loose) && i < |s.threads| && s.threads[i].phase.Unwinding?
    ensures InvWith(GoStep(s, i, world), Nobody(None), loose')
  {
    hide WalletInv;
    var ph := s.threads[i].phase;
    assert Responsible(ph);
    loose' := loose;
    if ph.hold.Some? {
      loose' := loose + {ph.hold.value};
      OneMoreGivesBack(s.threads, i, ph.hold.value, loose);
    } else {
      OthersGiveBack(s.threads, i, Returned, loose);
    }
  }

  lemma {:induction false} OneMoreGivesBack(threads: seq<Thread>, i: nat, h: nat, loose: set<nat>)
    requires GivenBack(threads, loose) && i < |threads| && !threads[i].phase.Reverted? && h !in loose
    ensures GivenBack(threads[i := threads[i].(phase := Reverted(h))], loose + {h})
  {
    var threads' := threads[i := threads[i].(phase := Reverted(h))];
    forall g | g in loose + {h} ensures GivesBack(threads', g) {
      if g in loose {
        var j :| 0 <= j < |threads| && threads[j].phase == Reverted(g);
        assert threads'[j].phase == Reverted(g);
      } else {
        assert threads'[i].phase == Reverted(g);
      }
    }
  }

  lemma {:induction false} UnclaimKeeps(s: State, i: nat, world: World, o: Owner, loose: set<nat>)
    requires InvWith(s, o, loose) && i < |s.threads| && s.threads[i].phase.Unclaimed?
    ensures InvWith(GoStep(s, i, world), Nobody(None), loose)
  {
    hide WalletInv, GivenBack;
    assert Responsible(s.threads[i].phase);
    OthersGiveBack(s.threads, i, Returned, loose);
  }

  lemma {:induction false} OneLessGivesBack(threads: seq<Thread>, i: nat, loose: set<nat>)
    requires GivenBack(threads, loose) && i < |threads| && threads[i].phase.Reverted?
    ensures GivenBack(threads[i := threads[i].(phase := Returned)], loose - {threads[i].phase.open})
  {
    var h := threads[i].phase.open;
    var threads' := threads[i := threads[i].(phase := Returned)];
    forall g | g in loose - {h} ensures GivesBack(threads', g) {
      var j :| 0 <= j < |threads| && threads[j].phase == Reverted(g);
      assert threads'[j].phase == Reverted(g);
    }
  }

  /** Giving a hold back changes nothing for whoever is responsible meanwhile. */
  lemma {:induction false} GiveBackKeeps(s: State, i: nat, world: World, o: Owner, loose: set<nat>)
    requires InvWith(s, o, loose) && i < |s.threads| && s.threads[i].phase.Reverted?
    ensures InvWith(GoStep(s, i, world), o, loose - {s.threads[i].phase.open})
  {
    hide WalletInv, Release, RestOk, PhaseOk, ParkedOk, OnlyLive, Carries, GivenBack;
    var h := s.threads[i].phase.open;
    var t := GoStep(s, i, world);
    assert h in loose by { LooseIsOpen(s.threads, i, loose); }
    LooseIsActive(s, o, loose, h);
    ReleaseCarries(s.ledger, s.booking, h);
    OneLessGivesBack(s.threads, i, loose);
    match o
    case Nobody(live) => FrameRest(s, t, {h}, live, loose);
    case ByThread(k) => FramePhase(s, t, {h}, s.threads[k].phase, loose);
    case Parked(live) =>
  }

  lemma {:induction false} LooseIsOpen(threads: seq<Thread>, i: nat, loose: set<nat>)
    requires GivenBack(threads, loose) && i < |threads| && threads[i].phase.Reverted?
    ensures threads[i].phase.open in loose
  {
  }

  lemma {:induction false} LooseIsActive(s: State, o: Owner, loose: set<nat>, h: nat)
    requires InvWith(s, o, loose) && h in loose
    ensures h < |s.ledger.holds| && s.ledger.holds[h].booking == s.booking
    ensures s.ledger.holds[h].status.Active? && s.ledger.holds[h].amount > 0
  {
    hide WalletInv, GivenBack;
  }

  lemma {:induction false} GoKeeps(s: State, i: nat, world: World, o: Owner, loose: set<nat>)
    returns (o': Owner, loose': set<nat>)
    requires InvWith(s, o, loose) && i < |s.threads| && Safe(s, Go(i, world))
    ensures InvWith(GoStep(s, i, world), o', loose')
  {
    hide WalletInv, Release, WalletStep, CardStep, ProceedStep, InvWith;
    o', loose' := o, loose;
    match s.threads[i].phase
    case Start => RequestStepKeeps(s, i, world, o, loose);
    case Eligible =>
      RequestStepKeeps(s, i, world, o, loose);
      if s.status.CheckoutPending? { o' := ByThread(i); }
    case Claimed => WalletStepKeeps(s, i, world, o, loose);
    case BalanceRead(_) => WalletStepKeeps(s, i, world, o, loose);
    case Funded(applied, hold) => o' := CardStepKeeps(s, i, applied, hold, world, o, loose);
    case Ready(_, _) => o' := LegacyStepKeeps(s, i, world, o, loose);
    case LegacyDone(_, _) => o' := CardCaptureKeeps(s, i, world, o, loose);
    case CardDone(_, _) => WalletCaptureKeeps(s, i, world, o, loose);
    case WalletDone(hold, _) => ConfirmKeeps(s, i, world, o, loose); o' := Nobody(hold);
    case Unwinding(_) => o' := Nobody(None); loose' := RevertKeeps(s, i, world, o, loose);
    case Unclaimed => o' := Nobody(None); UnclaimKeeps(s, i, world, o, loose);
    case Reverted(h) => loose' := loose - {h}; GiveBackKeeps(s, i, world, o, loose);
    case Returned => assert s.threads[i := s.threads[i]] == s.threads;
  }

  /** A safe claim finds nobody responsible, and with a card nothing loose. */
  lemma {:induction false} ClaimFindsNobody(s: State, i: nat, world: World, o: Owner, loose: set<nat>)
    requires InvWith(s, o, loose) && i < |s.threads| && s.threads[i].phase.Eligible? && s.status.CheckoutPending?
    requires Safe(s, Go(i, world))
    ensures o.Nobody? && (s.threads[i].hasCard ==> loose == {})
  {
    hide WalletInv, RestOk, PhaseOk, ParkedOk;
    assert Claims(s, Go(i, world));
    if loose != {} {
      var h :| h in loose;
      assert GivesBack(s.threads, h);
    }
  }

  /** Steps that touch neither ledger nor payments leave what a finished booking keeps. */
  lemma {:induction false} StillKept(s: State, s': State, live: Option<nat>, loose: set<nat>)
    requires RestOk(s, live, loose)
    requires s' == s.(threads := s'.threads)
    ensures RestOk(s', live, loose)
  {
    if s.status.Confirmed? {
      var pay :| PaidBy(s, live, pay, loose);
      assert PaidBy(s', live, pay, loose);
    }
    if s.status.ManualReview? {
      var pay :| Legs(s, live, pay, HoldStatus.Active, loose);
      assert Legs(s', live, pay, HoldStatus.Active, loose);
    }
  }

  lemma {:induction false} RequestStepKeeps(s: State, i: nat, world: World, o: Owner, loose: set<nat>)
    requires InvWith(s, o, loose) && i < |s.threads| && (s.threads[i].phase.Start? || s.threads[i].phase.Eligible?)
    requires Safe(s, Go(i, world))
    ensures var claims := s.threads[i].phase.Eligible? && s.status.CheckoutPending?;
            InvWith(GoStep(s, i, world), if claims then ByThread(i) else o, loose)
  {
    hide WalletInv, Release, WalletStep, CardStep, ProceedStep, PaidBy, GivenBack, Safe;
    var s' := GoStep(s, i, world);
    OthersGiveBack(s.threads, i, s'.threads[i].phase, loose);
    if s.threads[i].phase.Eligible? && s.status.CheckoutPending? { ClaimFindsNobody(s, i, world, o, loose); }
    if o.Nobody? && s'.status == s.status { StillKept(s, s', o.live, loose); }
  }

  /** A new thread that gives nothing back. */
  lemma {:induction false} NewThreadGivesNothing(threads: seq<Thread>, x: Thread, loose: set<nat>)
    requires GivenBack(threads, loose) && !x.phase.Reverted?
    ensures GivenBack(threads + [x], loose)
  {
    forall h | h in loose ensures GivesBack(threads + [x], h) {
      var j :| 0 <= j < |threads| && threads[j].phase == Reverted(h);
      assert (threads + [x])[j].phase == Reverted(h);
    }
  }

  lemma {:induction false} CapturableKeeps(s: State, pay: nat, o: Owner, loose: set<nat>) returns (o': Owner)
    requires InvWith(s, o, loose)
    ensures InvWith(CapturableStep(s, pay), o', loose)
  {
    hide WalletInv, FindActive, GivenBack;
    o' := o;
    if pay < |s.payments| && s.payments[pay].status.RequiresAction? {
      assert s.payments[pay] in s.payments;
      assert o.Parked?;
      FindActiveIsLive(s.ledger.holds, s.booking, o.live);
      NewThreadGivesNothing(s.threads, Thread(0, true, true, Ready(o.live, Some(pay))), loose);
      o' := ByThread(|s.threads|);
    }
  }

  lemma {:induction false} FailedKeeps(s: State, pay: nat, o: Owner, loose: set<nat>) returns (o': Owner)
    requires InvWith(s, o, loose) && Allowed(s, FailedWebhook(pay))
    ensures InvWith(FailedStep(s, pay), o', loose)
  {
    hide WalletInv, FindActive, Release, GivenBack;
    o' := o;
    if pay < |s.payments| && s.payments[pay].status.RequiresAction? {
      assert s.payments[pay] in s.payments;
      assert o.Parked?;
      FindActiveIsLive(s.ledger.holds, s.booking, o.live);
      ReleaseLive(s.ledger, s.booking, o.live, {});
      o' := Nobody(None);
    }
  }

  lemma {:induction false} OtherOpKeeps(s: State, op: WalletLedger.Op, o: Owner, loose: set<nat>)
    requires InvWith(s, o, loose) && Allowed(s, OtherWalletOp(op))
    ensures InvWith(Step(s, OtherWalletOp(op)), o, loose)
  {
    hide WalletInv, Apply, TouchesBooking, RestOk, PhaseOk, ParkedOk, GivenBack, Carries;
    var t := Step(s, OtherWalletOp(op));
    ApplyKeepsInv(s.ledger, op);
    OthersCarry(s.ledger, op, s.booking);
    assert loose - {} == loose;
    match o
    case Nobody(live) => FrameRest(s, t, {}, live, loose);
    case ByThread(i) => FramePhase(s, t, {}, s.threads[i].phase, loose);
    case Parked(live) => FrameParked(s, t, live);
  }

  lemma {:induction false} NewRequestKeeps(s: State, apply: int, hasCard: bool, o: Owner, loose: set<nat>)
    requires InvWith(s, o, loose)
    ensures InvWith(Step(s, Request(apply, hasCard)), o, loose)
  {
    hide WalletInv, GivenBack, PaidBy;
    var s' := Step(s, Request(apply, hasCard));
    NewThreadGivesNothing(s.threads, Thread(apply, hasCard, false, Start), loose);
    if o.Nobody? && s'.status == s.status { StillKept(s, s', o.live, loose); }
  }

  lemma {:induction false} StepKeeps(s: State, e: Event, o: Owner, loose: set<nat>)
    returns (o': Owner, loose': set<nat>)
    requires InvWith(s, o, loose) && Allowed(s, e) && Safe(s, e)
    ensures InvWith(Step(s, e), o', loose')
  {
    hide InvWith, GoStep, CapturableStep, FailedStep, Apply, Safe;
    o', loose' := o, loose;
    match e
    case Request(apply, hasCard) => NewRequestKeeps(s, apply, hasCard, o, loose);
    case Go(i, world) => if i < |s.threads| { o', loose' := GoKeeps(s, i, world, o, loose); }
    case CapturableWebhook(pay) => o' := CapturableKeeps(s, pay, o, loose);
    case FailedWebhook(pay) => o' := FailedKeeps(s, pay, o, loose);
    case OtherWalletOp(op) => OtherOpKeeps(s, op, o, loose);
  }
}
