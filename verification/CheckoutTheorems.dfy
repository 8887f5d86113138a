/**
 What holds at every point of every run of FULL checkouts and webhooks: what no interleaving can break, what holds as
 long as every claim is safe, and that one request is in checkout at a time exactly when every claim is orderly.
 */
module CheckoutTheorems {
  import opened Common
  import opened WalletLedger
  import opened WalletProofs
  import opened Bookings
  import opened CheckoutProtocol
  import opened CheckoutProofs

  // ---------------------------------------------------------------------
  // Runs
  // ---------------------------------------------------------------------

  /** A booking waiting for its first checkout, on a sound wallet. */
  ghost predicate Initial(s: State) {
    WalletInv(s.ledger) && s.price >= 0 && s.status.CheckoutPending? && s.payments == [] && s.threads == []
    && OnlyLive(s.ledger.holds, s.booking, None, {})
  }

  /** Any interleaving of requests, webhooks and other wallet traffic. */
  ghost predicate IsRun(states: seq<State>, events: seq<Event>) {
    && |states| == |events| + 1 && Initial(states[0])
    && forall k :: 0 <= k < |events| ==> Allowed(states[k], events[k]) && states[k + 1] == Step(states[k], events[k])
  }

  // ---------------------------------------------------------------------
  // What no interleaving can break
  // ---------------------------------------------------------------------

  /** No run ever harms the wallet itself. */
  lemma {:induction false} WalletStaysSound(states: seq<State>, events: seq<Event>, k: nat)
    requires IsRun(states, events) && k < |states|
    ensures WalletInv(states[k].ledger)
  {
    hide WalletInv, Step, Allowed;
    if k > 0 {
      WalletStaysSound(states, events, k - 1);
      StepKeepsWallet(states[k - 1], events[k - 1]);
    }
  }

  lemma {:induction false} StepKeepsWallet(s: State, e: Event)
    requires WalletInv(s.ledger) && Allowed(s, e)
    ensures WalletInv(Step(s, e).ledger)
  {
    hide WalletInv, Apply, FindActive, Release, Available;
    var l := s.ledger;
    forall hold ensures WalletInv(Release(l, hold)) { ReleaseKeepsWallet(l, hold); }
    forall h: nat ensures WalletInv(Apply(l, CaptureHold(h)).0) { ApplyKeepsInv(l, CaptureHold(h)); }
    if e.OtherWalletOp? { ApplyKeepsInv(l, e.op); }
    if e.Go? && e.thread < |s.threads| && s.threads[e.thread].phase.BalanceRead? {
      var applied := s.threads[e.thread].phase.applied;
      if applied > 0 { ApplyKeepsInv(l, CreateHold(s.wallet, s.booking, applied)); }
    }
  }

  lemma {:induction false} ReleaseKeepsWallet(l: Ledger, hold: Option<nat>)
    requires WalletInv(l)
    ensures WalletInv(Release(l, hold))
  {
    hide WalletInv, Apply;
    if hold.Some? { ApplyKeepsInv(l, ReleaseHold(hold.value)); }
  }

  /** Every hold a request refers to exists. */
  predicate HoldsExist(s: State) {
    forall i :: 0 <= i < |s.threads| && LegOf(s.threads[i].phase).Some? ==>
      LegOf(s.threads[i].phase).value < |s.ledger.holds|
  }

  lemma {:induction false} NoHoldIsLost(l: Ledger, op: WalletLedger.Op)
    ensures |l.holds| <= |Apply(l, op).0.holds|
  {
    hide Sum, Reserved, Greedy, Proportional, RowsOf;
  }

  lemma {:induction false} ReleaseLosesNone(l: Ledger, hold: Option<nat>)
    ensures |l.holds| <= |Release(l, hold).holds|
  {
    hide Apply;
    if hold.Some? { NoHoldIsLost(l, ReleaseHold(hold.value)); }
  }

  lemma {:induction false} OpenedExists(l: Ledger, w: nat, booking: nat, amount: int)
    ensures var (l', r) := Apply(l, CreateHold(w, booking, amount)); r == Done ==> |l'.holds| == |l.holds| + 1
  {
    hide Sum, Reserved;
  }

  lemma {:induction false} WalletStepKeepsLeg(s: State, i: nat, world: World)
    requires i < |s.threads| && (s.threads[i].phase.Claimed? || s.threads[i].phase.BalanceRead?)
    ensures LegKept(s, WalletStep(s, i, world), i)
  {
    hide Apply, Available;
    var ph := s.threads[i].phase;
    if ph.BalanceRead? {
      NoHoldIsLost(s.ledger, CreateHold(s.wallet, s.booking, ph.applied));
      OpenedExists(s.ledger, s.wallet, s.booking, ph.applied);
    }
  }

  /** No hold disappears, and the hold that request `i` refers to afterwards exists. */
  predicate LegKept(s: State, t: State, i: nat)
    requires i < |t.threads|
  {
    && |s.ledger.holds| <= |t.ledger.holds|
    && (LegOf(t.threads[i].phase).Some? ==> LegOf(t.threads[i].phase).value < |t.ledger.holds|)
  }

  lemma {:induction false} ProceedStepKeepsLeg(s: State, i: nat, world: World)
    requires i < |s.threads|
    requires LegOf(s.threads[i].phase).Some? ==> LegOf(s.threads[i].phase).value < |s.ledger.holds|
    ensures LegKept(s, ProceedStep(s, i, world), i)
  {
    hide Apply, Release;
    var leg := LegOf(s.threads[i].phase);
    ReleaseLosesNone(s.ledger, leg);
    if leg.Some? { NoHoldIsLost(s.ledger, CaptureHold(leg.value)); }
  }

  /** The request that moves still refers to a hold that exists, and no hold disappears. */
  lemma {:induction false} GoKeepsLeg(s: State, i: nat, world: World)
    requires HoldsExist(s) && i < |s.threads|
    ensures LegKept(s, GoStep(s, i, world), i)
  {
    hide Apply, Release, HoldsExist, WalletStep, ProceedStep;
    var ph := s.threads[i].phase;
    LegExists(s, i);
    ReleaseLosesNone(s.ledger, LegOf(ph));
    if ph.Claimed? || ph.BalanceRead? { WalletStepKeepsLeg(s, i, world); }
    ProceedStepKeepsLeg(s, i, world);
  }

  lemma {:induction false} LegExists(s: State, i: nat)
    requires HoldsExist(s) && i < |s.threads|
    ensures LegOf(s.threads[i].phase).Some? ==> LegOf(s.threads[i].phase).value < |s.ledger.holds|
  {
  }

  lemma {:induction false} StepKeepsHolds(s: State, e: Event)
    requires HoldsExist(s)
    ensures HoldsExist(Step(s, e))
  {
    hide FindActive, Apply, Release, LegOf, GoStep;
    var t := Step(s, e);
    match e
    case OtherWalletOp(op) => NoHoldIsLost(s.ledger, op);
    case Go(i, world) =>
      if i < |s.threads| {
        GoKeepsLeg(s, i, world);
        GoMovesOne(s, i, world);
      }
    case CapturableWebhook(pay) => WebhookLeg(s, pay);
    case FailedWebhook(_) => ReleaseLosesNone(s.ledger, FindActive(s.ledger.holds, s.booking));
    case Request(apply, hasCard) => assert LegOf(Start) == None by { StartHasNoLeg(); }
  }

  lemma {:induction false} StartHasNoLeg()
    ensures LegOf(Start) == None
  {
  }

  lemma {:induction false} WebhookLeg(s: State, pay: nat)
    ensures var hold := FindActive(s.ledger.holds, s.booking);
            LegOf(Ready(hold, Some(pay))) == hold && (hold.Some? ==> hold.value < |s.ledger.holds|)
  {
  }

  lemma {:induction false} GoMovesOne(s: State, i: nat, world: World)
    requires i < |s.threads|
    ensures var t := GoStep(s, i, world);
            |t.threads| == |s.threads| && forall j :: 0 <= j < |s.threads| && j != i ==> t.threads[j] == s.threads[j]
  {
    hide Apply, Release, Available;
  }

  lemma {:induction false} HoldsAlwaysExist(states: seq<State>, events: seq<Event>, k: nat)
    requires IsRun(states, events) && k < |states|
    ensures HoldsExist(states[k])
  {
    hide Step, Allowed, WalletInv;
    if k > 0 {
      hide HoldsExist;
      HoldsAlwaysExist(states, events, k - 1);
      StepKeepsHolds(states[k - 1], events[k - 1]);
    }
  }

  predicate Capturing(ph: Phase) { ph.CardDone? || ph.WalletDone? }

  /**
   Once its card is captured, or was not needed, a request always confirms, in every run and whatever it is answered:
   the wallet capture cannot fail after the card capture, and each of the two steps left goes on whenever it is taken.
   */
  lemma {:induction false} CapturingAlwaysConfirms(states: seq<State>, events: seq<Event>, k: nat, i: nat, w1: World,
                                                   w2: World)
    requires IsRun(states, events) && k < |states|
    requires i < |states[k].threads| && Capturing(states[k].threads[i].phase)
    ensures var s, ph := states[k], states[k].threads[i].phase;
            && (ph.CardDone? ==> Step(s, Go(i, w1)).threads[i].phase == WalletDone(ph.hold, ph.pay))
            && (ph.WalletDone? ==> Step(s, Go(i, w1)).status.Confirmed?)
            && (ph.CardDone? ==> Step(Step(s, Go(i, w1)), Go(i, w2)).status.Confirmed?)
  {
    hide WalletInv, IsRun;
    WalletStaysSound(states, events, k);
    HoldsAlwaysExist(states, events, k);
    WalletCaptureSucceeds(states[k], i, w1);
  }

  lemma {:induction false} WalletCaptureSucceeds(s: State, i: nat, world: World)
    requires WalletInv(s.ledger) && HoldsExist(s) && i < |s.threads|
    ensures var ph := s.threads[i].phase;
            ph.CardDone? ==>
              && Step(s, Go(i, world)).threads[i].phase == WalletDone(ph.hold, ph.pay)
              && Step(s, Go(i, world)).status == s.status
  {
    hide WalletInv, Apply;
    var ph := s.threads[i].phase;
    if ph.CardDone? && ph.hold.Some? {
      assert LegOf(ph) == ph.hold;
      CaptureAnswersDone(s.ledger, ph.hold.value);
    }
  }

  lemma {:induction false} CaptureAnswersDone(l: Ledger, h: nat)
    requires WalletInv(l) && h < |l.holds|
    ensures Apply(l, CaptureHold(h)).1 == Done
  {
    hide WalletInv, Greedy, RowsOf, Sum, Reserved;
    CaptureIsTotal(l, h);
  }

  predicate IsParked(s: State) { exists j :: 0 <= j < |s.payments| && s.payments[j].status.RequiresAction? }

  /** Somebody is still going to move the booking on. */
  predicate Attended(s: State) {
    IsParked(s) || exists i :: 0 <= i < |s.threads| && InCheckout(s.threads[i].phase) && !Exiting(s.threads[i].phase)
  }

  lemma {:induction false} GoKeepsAttended(s: State, i: nat, world: World)
    requires WalletInv(s.ledger) && HoldsExist(s) && (s.status.PaymentPending? ==> Attended(s)) && i < |s.threads|
    ensures GoStep(s, i, world).status.PaymentPending? ==> Attended(GoStep(s, i, world))
  {
    hide WalletInv, Apply, Release, Available, HoldsExist;
    WalletCaptureSucceeds(s, i, world);
    var t := GoStep(s, i, world);
    if t.status.PaymentPending? && s.status.PaymentPending? {
      if IsParked(s) {
        StaysParked(s, i, world);
      } else {
        var j :| 0 <= j < |s.threads| && InCheckout(s.threads[j].phase) && !Exiting(s.threads[j].phase);
        if j != i { assert t.threads[j] == s.threads[j]; } else { MovesOn(s, i, world); }
      }
    } else if t.status.PaymentPending? {
      assert t.threads[i].phase == Claimed;
    }
  }

  lemma {:induction false} StaysParked(s: State, i: nat, world: World)
    requires IsParked(s) && i < |s.threads| && s.status.PaymentPending?
    ensures GoStep(s, i, world).status.PaymentPending? ==> Attended(GoStep(s, i, world))
  {
    hide Apply, Release, Available;
    var t := GoStep(s, i, world);
    var j :| 0 <= j < |s.payments| && s.payments[j].status.RequiresAction?;
    assert j < |t.payments|;
    if t.status.PaymentPending? && !t.payments[j].status.RequiresAction? {
      assert InCheckout(t.threads[i].phase) && !Exiting(t.threads[i].phase);
    }
  }

  lemma {:induction false} MovesOn(s: State, i: nat, world: World)
    requires WalletInv(s.ledger) && HoldsExist(s) && i < |s.threads| && s.status.PaymentPending?
    requires InCheckout(s.threads[i].phase) && !Exiting(s.threads[i].phase)
    ensures GoStep(s, i, world).status.PaymentPending? ==> Attended(GoStep(s, i, world))
  {
    hide WalletInv, Apply, Release, Available, HoldsExist;
    WalletCaptureSucceeds(s, i, world);
    var t := GoStep(s, i, world);
    if t.status.PaymentPending? {
      if InCheckout(t.threads[i].phase) {
        assert !Exiting(t.threads[i].phase);
      } else {
        assert t.payments[|s.payments|].status.RequiresAction?;
      }
    }
  }

  lemma {:induction false} StepKeepsAttended(s: State, e: Event)
    requires WalletInv(s.ledger) && HoldsExist(s) && (s.status.PaymentPending? ==> Attended(s))
    ensures Step(s, e).status.PaymentPending? ==> Attended(Step(s, e))
  {
    hide WalletInv, Apply, Release, FindActive, HoldsExist, GoStep;
    var t := Step(s, e);
    match e
    case Go(i, world) => if i < |s.threads| { GoKeepsAttended(s, i, world); }
    case CapturableWebhook(pay) =>
      if pay < |s.payments| && s.payments[pay].status.RequiresAction? {
        assert t.threads[|s.threads|].phase.Ready?;
      }
    case Request(_, _) =>
      if s.status.PaymentPending? && !IsParked(s) {
        var j :| 0 <= j < |s.threads| && InCheckout(s.threads[j].phase) && !Exiting(s.threads[j].phase);
        assert t.threads[j] == s.threads[j];
      }
    case _ =>
  }

  /**
   In every run a booking in PAYMENT_PENDING is somebody's: of a request on its way to an outcome, or of a payment
   waiting for 3D Secure.
   */
  lemma {:induction false} PendingIsNeverOrphaned(states: seq<State>, events: seq<Event>, k: nat)
    requires IsRun(states, events) && k < |states|
    ensures states[k].status.PaymentPending? ==> Attended(states[k])
  {
    hide WalletInv, Step, HoldsExist, Attended, Allowed;
    if k > 0 {
      WalletStaysSound(states, events, k - 1);
      HoldsAlwaysExist(states, events, k - 1);
      PendingIsNeverOrphaned(states, events, k - 1);
      StepKeepsAttended(states[k - 1], events[k - 1]);
    }
  }

  // ---------------------------------------------------------------------
  // The money, as long as every claim is safe
  // ---------------------------------------------------------------------

  /** Up to point `n` every claim was safe. */
  ghost predicate IsSafeRun(states: seq<State>, events: seq<Event>, n: nat) {
    n <= |events| < |states| && IsRun(states, events) && forall k :: 0 <= k < n ==> Safe(states[k], events[k])
  }

  lemma {:induction false} RunKeeps(states: seq<State>, events: seq<Event>, k: nat)
    returns (o: Owner, loose: set<nat>)
    requires IsSafeRun(states, events, k)
    ensures InvWith(states[k], o, loose)
  {
    hide WalletInv, Step, InvWith, Safe, Allowed;
    if k == 0 {
      o, loose := Nobody(None), {};
      InitialIsAtRest(states[0]);
    } else {
      o, loose := RunKeeps(states, events, k - 1);
      o, loose := StepKeeps(states[k - 1], events[k - 1], o, loose);
    }
  }

  lemma {:induction false} InitialIsAtRest(s: State)
    requires Initial(s)
    ensures InvWith(s, Nobody(None), {})
  {
    hide WalletInv;
  }

  function CapturedHolds(holds: seq<Hold>, booking: nat): int {
    if holds == [] then 0
    else
      var h := holds[|holds| - 1];
      CapturedHolds(holds[..|holds| - 1], booking)
      + (if h.booking == booking && h.status.Captured? then h.amount else 0)
  }

  function CapturedCards(payments: seq<PaymentRow>): int {
    if payments == [] then 0
    else
      var p := payments[|payments| - 1];
      CapturedCards(payments[..|payments| - 1]) + (if p.status.Succeeded? then p.amount else 0)
  }

  /** What wallet and card have paid for the booking. */
  function PaidIn(s: State): int {
    CapturedHolds(s.ledger.holds, s.booking) + CapturedCards(s.payments)
  }

  lemma {:induction false} CapturedIsLive(holds: seq<Hold>, booking: nat, live: Option<nat>)
    requires forall k: nat :: k < |holds| && holds[k].booking == booking && holds[k].status.Captured? ==>
               live == Some(k)
    ensures CapturedHolds(holds, booking) ==
            if live.Some? && live.value < |holds| && holds[live.value].booking == booking
              && holds[live.value].status.Captured?
            then holds[live.value].amount else 0
  {
    if holds != [] {
      var n := |holds| - 1;
      forall k: nat | k < n && holds[..n][k].booking == booking && holds[..n][k].status.Captured?
        ensures live == Some(k) {
        assert holds[..n][k] == holds[k];
      }
      CapturedIsLive(holds[..n], booking, live);
    }
  }

  lemma {:induction false} OneRow(payments: seq<PaymentRow>)
    requires |payments| == 1
    ensures CapturedCards(payments) == if payments[0].status.Succeeded? then payments[0].amount else 0
  {
    assert payments[..0] == [];
  }

  lemma {:induction false} NoRows(payments: seq<PaymentRow>)
    requires payments == []
    ensures CapturedCards(payments) == 0
  {
  }

  /**
   An open or failed booking keeps no captured or authorised card and no hold, except for exactly those that a catch
   block is about to give back.
   */
  predicate KeepsNothing(s: State) {
    && (forall h: nat :: h < |s.ledger.holds| && s.ledger.holds[h].booking == s.booking ==>
          s.ledger.holds[h].status == if GivesBack(s.threads, h) then HoldStatus.Active else HoldStatus.Released)
    && (forall p :: p in s.payments ==> !p.status.Succeeded? && !p.status.Authorized?)
    && (s.status.CheckoutPending? ==> s.payments == [])
  }

  predicate SomethingCaptured(s: State) {
    || (exists p :: p in s.payments && p.status.Succeeded?)
    || (exists h :: h in s.ledger.holds && h.booking == s.booking && h.status.Captured?)
  }

  lemma {:induction false} PaidWhenConfirmed(s: State, o: Owner, loose: set<nat>)
    requires InvWith(s, o, loose) && s.status.Confirmed?
    ensures PaidIn(s) == s.price
  {
    hide WalletInv, CapturedHolds, CapturedCards, GivenBack;
    var pay :| PaidBy(s, o.live, pay, loose);
    CapturedIsLive(s.ledger.holds, s.booking, o.live);
    if pay.Some? { OneRow(s.payments); } else { NoRows(s.payments); }
  }

  lemma {:induction false} NothingWhenOpenOrFailed(s: State, o: Owner, loose: set<nat>)
    requires InvWith(s, o, loose) && (s.status.CheckoutPending? || s.status.Failed?)
    ensures KeepsNothing(s)
  {
    hide WalletInv;
    assert OnlyLive(s.ledger.holds, s.booking, None, loose);
    forall h: nat | h < |s.ledger.holds| && s.ledger.holds[h].booking == s.booking
      ensures s.ledger.holds[h].status == if GivesBack(s.threads, h) then HoldStatus.Active else HoldStatus.Released
    {
      if GivesBack(s.threads, h) {
        var i :| 0 <= i < |s.threads| && s.threads[i].phase == Reverted(h);
        assert h in loose;
      } else {
        assert h !in loose;
      }
    }
  }

  /**
   A booking under review keeps everything for an administrator: a hold that is still active and not being given back,
   and a payment row that nobody has captured, which together are the price.
   */
  ghost predicate KeepsBothLegs(s: State) {
    && |s.payments| <= 1 && (forall p :: p in s.payments ==> !p.status.Succeeded? && !p.status.RequiresAction?)
    && exists live :: KeepsLegs(s, live)
  }

  predicate KeepsLegs(s: State, live: Option<nat>) {
    var holds := s.ledger.holds;
    && (live.Some? ==>
      live.value < |holds| && holds[live.value].booking == s.booking && holds[live.value].status.Active?
                       && !GivesBack(s.threads, live.value))
    && LiveAmount(holds, live) + (if s.payments == [] then 0 else s.payments[0].amount) == s.price
  }

  lemma {:induction false} LegsUnderReview(s: State, o: Owner, loose: set<nat>)
    requires InvWith(s, o, loose) && s.status.ManualReview?
    ensures KeepsBothLegs(s)
  {
    hide WalletInv;
    var pay :| Legs(s, o.live, pay, HoldStatus.Active, loose);
    if o.live.Some? { OthersStay(s.threads, o.live.value, loose); }
    assert KeepsLegs(s, o.live);
  }

  lemma {:induction false} OthersStay(threads: seq<Thread>, h: nat, loose: set<nat>)
    requires GivenBack(threads, loose)
    ensures GivesBack(threads, h) ==> h in loose
  {
  }

  lemma {:induction false} ConfirmedWhenCaptured(s: State, o: Owner, loose: set<nat>)
    requires InvWith(s, o, loose) && SomethingCaptured(s)
    ensures s.status.Confirmed? || exists t :: t in s.threads && Capturing(t.phase)
  {
    hide WalletInv, GivenBack;
    if exists h :: h in s.ledger.holds && h.booking == s.booking && h.status.Captured? {
      var h :| h in s.ledger.holds && h.booking == s.booking && h.status.Captured?;
      var i :| 0 <= i < |s.ledger.holds| && s.ledger.holds[i] == h;
      assert i !in loose;
    }
    if o.ByThread? { assert s.threads[o.i] in s.threads; }
  }

  /** A confirmed booking has been paid its exact price, wallet and card together. */
  lemma {:induction false} ConfirmedIsFullyPaid(states: seq<State>, events: seq<Event>, k: nat)
    requires IsSafeRun(states, events, k) && states[k].status.Confirmed?
    ensures PaidIn(states[k]) == states[k].price
  {
    hide IsRun, WalletInv, InvWith, Safe, PaidIn;
    var o, loose := RunKeeps(states, events, k);
    PaidWhenConfirmed(states[k], o, loose);
  }

  lemma {:induction false} OpenOrFailedKeepsNothing(states: seq<State>, events: seq<Event>, k: nat)
    requires IsSafeRun(states, events, k) && (states[k].status.CheckoutPending? || states[k].status.Failed?)
    ensures KeepsNothing(states[k])
  {
    hide IsRun, WalletInv, InvWith, Safe, KeepsNothing;
    var o, loose := RunKeeps(states, events, k);
    NothingWhenOpenOrFailed(states[k], o, loose);
  }

  /** MANUAL_REVIEW gives nothing back and captures nothing. */
  lemma {:induction false} ReviewKeepsBothLegs(states: seq<State>, events: seq<Event>, k: nat)
    requires IsSafeRun(states, events, k) && states[k].status.ManualReview?
    ensures KeepsBothLegs(states[k])
  {
    hide IsRun, WalletInv, InvWith, Safe, KeepsBothLegs;
    var o, loose := RunKeeps(states, events, k);
    LegsUnderReview(states[k], o, loose);
  }

  /** Money known to be captured means CONFIRMED, or a request that has only captures and the confirmation left. */
  lemma {:induction false} CaptureMeansConfirmed(states: seq<State>, events: seq<Event>, k: nat)
    requires IsSafeRun(states, events, k) && SomethingCaptured(states[k])
    ensures states[k].status.Confirmed? || exists t :: t in states[k].threads && Capturing(t.phase)
  {
    hide IsRun, WalletInv, InvWith, Safe, SomethingCaptured, Capturing;
    var o, loose := RunKeeps(states, events, k);
    ConfirmedWhenCaptured(states[k], o, loose);
  }

  // ---------------------------------------------------------------------
  // One request at a time
  // ---------------------------------------------------------------------

  predicate AtMostOneIn(s: State) {
    forall i, j :: 0 <= i < j < |s.threads| ==> !(InCheckout(s.threads[i].phase) && InCheckout(s.threads[j].phase))
  }

  predicate AtMostOneActive(holds: seq<Hold>, booking: nat) {
    forall a: nat, b: nat :: a < b < |holds| && holds[a].booking == booking && holds[b].booking == booking ==>
      !(holds[a].status.Active? && holds[b].status.Active?)
  }

  /** Up to point `n` nobody claimed the booking while another request was still leaving it. */
  ghost predicate IsOrderlyRun(states: seq<State>, events: seq<Event>, n: nat) {
    n <= |events| < |states| && IsRun(states, events) && forall k :: 0 <= k < n ==> Orderly(states[k], events[k])
  }

  lemma {:induction false} OrderlyIsSafe(s: State, e: Event)
    requires Orderly(s, e)
    ensures Safe(s, e)
  {
    if Claims(s, e) {
      forall j | 0 <= j < |s.threads| ensures !Exiting(s.threads[j].phase) { }
    }
  }

  /** One request at most is in checkout, and while one is leaving the booking is open. */
  predicate Tidy(s: State) { AtMostOneIn(s) && (SomebodyExiting(s) ==> s.status.CheckoutPending?) }

  /** An orderly claim finds nobody in checkout at all. */
  lemma {:induction false} ClaimFindsNobodyIn(s: State, e: Event, o: Owner, loose: set<nat>, j: nat)
    requires InvWith(s, o, loose) && Claims(s, e) && Orderly(s, e) && j < |s.threads|
    ensures !InCheckout(s.threads[j].phase)
  {
    hide WalletInv, GivenBack, RestOk, PhaseOk, ParkedOk;
    assert !Exiting(s.threads[j].phase);
  }

  lemma {:induction false} ParkedFindsNobodyIn(s: State, o: Owner, loose: set<nat>)
    requires InvWith(s, o, loose) && IsParked(s)
    ensures o.Parked? && loose == {}
    ensures forall i :: 0 <= i < |s.threads| ==> !InCheckout(s.threads[i].phase)
  {
    hide WalletInv;
    var j :| 0 <= j < |s.payments| && s.payments[j].status.RequiresAction?;
    assert s.payments[j] in s.payments;
  }

  /** Who is in checkout afterwards was so before, unless this is a claim or the webhook that goes on. */
  lemma {:induction false} EntersOnlyBy(s: State, e: Event, j: nat)
    requires j < |Step(s, e).threads| && InCheckout(Step(s, e).threads[j].phase)
    ensures (j < |s.threads| && InCheckout(s.threads[j].phase))
            || (Claims(s, e) && e.thread == j)
            || (e.CapturableWebhook? && IsParked(s) && j == |s.threads|)
  {
    hide Apply, Release, Available, FindActive;
  }

  lemma {:induction false} StepKeepsOneIn(s: State, e: Event, o: Owner, loose: set<nat>)
    requires InvWith(s, o, loose) && Orderly(s, e) && AtMostOneIn(s)
    ensures AtMostOneIn(Step(s, e))
  {
    hide InvWith, Step, Orderly, SomebodyExiting;
    var t := Step(s, e);
    forall i, j | 0 <= i < j < |t.threads| ensures !(InCheckout(t.threads[i].phase) && InCheckout(t.threads[j].phase)) {
      if InCheckout(t.threads[i].phase) && InCheckout(t.threads[j].phase) {
        EntersOnlyBy(s, e, i);
        EntersOnlyBy(s, e, j);
        if Claims(s, e) {
          ClaimFindsNobodyIn(s, e, o, loose, if e.thread == i && j < |s.threads| then j else i);
        } else if e.CapturableWebhook? && IsParked(s) {
          ParkedFindsNobodyIn(s, o, loose);
        }
      }
    }
  }

  lemma {:induction false} GoLeavesByOpening(s: State, i: nat, world: World)
    requires i < |s.threads|
    ensures var t := GoStep(s, i, world);
            Exiting(t.threads[i].phase) ==> t.status.CheckoutPending? || Exiting(s.threads[i].phase)
  {
    hide Apply, Release, Available;
  }

  /** A request starts leaving only by opening the booking. */
  lemma {:induction false} LeavesByOpening(s: State, e: Event, j: nat)
    requires j < |Step(s, e).threads| && Exiting(Step(s, e).threads[j].phase)
    ensures Step(s, e).status.CheckoutPending? || (j < |s.threads| && Exiting(s.threads[j].phase))
  {
    hide Apply, Release, FindActive, GoStep;
    if e.Go? && e.thread < |s.threads| {
      GoMovesOne(s, e.thread, e.world);
      GoLeavesByOpening(s, e.thread, e.world);
    }
  }

  /** An open booking without payments closes only by a claim or by a request that is not leaving. */
  lemma {:induction false} ClosesOnlyBy(s: State, e: Event)
    requires s.status.CheckoutPending? && s.payments == [] && !Step(s, e).status.CheckoutPending?
    ensures e.Go? && e.thread < |s.threads|
    ensures Claims(s, e) || (InCheckout(s.threads[e.thread].phase) && !Exiting(s.threads[e.thread].phase))
  {
    hide Apply, Release, Available, FindActive;
  }

  lemma {:induction false} StepKeepsOpen(s: State, e: Event, o: Owner, loose: set<nat>)
    requires InvWith(s, o, loose) && Orderly(s, e) && Tidy(s)
    ensures SomebodyExiting(Step(s, e)) ==> Step(s, e).status.CheckoutPending?
  {
    hide InvWith, Step;
    var t := Step(s, e);
    if SomebodyExiting(t) && !t.status.CheckoutPending? {
      var j :| 0 <= j < |t.threads| && Exiting(t.threads[j].phase);
      LeavesByOpening(s, e, j);
      OpenHasNoRows(s, o, loose);
      ClosesOnlyBy(s, e);
    }
  }

  lemma {:induction false} OpenHasNoRows(s: State, o: Owner, loose: set<nat>)
    requires InvWith(s, o, loose) && s.status.CheckoutPending?
    ensures s.payments == []
  {
    hide WalletInv, GivenBack;
  }

  lemma {:induction false} OrderlyKeeps(states: seq<State>, events: seq<Event>, k: nat)
    returns (o: Owner, loose: set<nat>)
    requires IsOrderlyRun(states, events, k)
    ensures InvWith(states[k], o, loose) && Tidy(states[k])
  {
    hide WalletInv, Step, InvWith, Safe, Allowed, Orderly, AtMostOneIn;
    if k == 0 {
      o, loose := Nobody(None), {};
      InitialIsAtRest(states[0]);
      InitialIsTidy(states[0]);
    } else {
      var s, e := states[k - 1], events[k - 1];
      o, loose := OrderlyKeeps(states, events, k - 1);
      StepKeepsOneIn(s, e, o, loose);
      StepKeepsOpen(s, e, o, loose);
      OrderlyIsSafe(s, e);
      o, loose := StepKeeps(s, e, o, loose);
    }
  }

  lemma {:induction false} InitialIsTidy(s: State)
    requires Initial(s)
    ensures Tidy(s)
  {
    hide WalletInv;
  }

  lemma {:induction false} OneActiveWhenTidy(s: State, o: Owner, loose: set<nat>)
    requires InvWith(s, o, loose) && Tidy(s)
    ensures AtMostOneActive(s.ledger.holds, s.booking) && |s.payments| <= 1
  {
    hide WalletInv;
    forall a: nat, b: nat | a in loose && b in loose ensures a == b {
      var i :| 0 <= i < |s.threads| && s.threads[i].phase == Reverted(a);
      var j :| 0 <= j < |s.threads| && s.threads[j].phase == Reverted(b);
      assert InCheckout(s.threads[i].phase) && InCheckout(s.threads[j].phase);
    }
    if h :| h in loose {
      var i :| 0 <= i < |s.threads| && s.threads[i].phase == Reverted(h);
      assert Exiting(s.threads[i].phase) && s.status.CheckoutPending?;
    }
  }

  /**
   At every point of every orderly run: at most one request is between its claim and its exit, none is while a payment
   waits for 3D Secure, at most one hold is active for the booking, and there is never a second payment row.
   */
  lemma {:induction false} OneCheckoutAtATime(states: seq<State>, events: seq<Event>, k: nat)
    requires IsOrderlyRun(states, events, k)
    ensures var s := states[k];
            && AtMostOneIn(s) && AtMostOneActive(s.ledger.holds, s.booking) && |s.payments| <= 1
            && (IsParked(s) ==> forall i :: 0 <= i < |s.threads| ==> !InCheckout(s.threads[i].phase))
  {
    hide InvWith, IsRun, WalletInv, Orderly, AtMostOneIn, AtMostOneActive;
    var o, loose := OrderlyKeeps(states, events, k);
    OneActiveWhenTidy(states[k], o, loose);
    if IsParked(states[k]) { ParkedFindsNobodyIn(states[k], o, loose); }
  }

  /** A claim out of order puts two requests between their claim and their exit. */
  lemma {:induction false} DisorderlyLetsTwoIn(s: State, e: Event)
    requires !Orderly(s, e)
    ensures !AtMostOneIn(Step(s, e))
  {
    hide Release, WalletStep, CardStep, ProceedStep;
    var j :| 0 <= j < |s.threads| && Exiting(s.threads[j].phase);
    var t := Step(s, e);
    assert t.threads[e.thread].phase == Claimed && t.threads[j] == s.threads[j];
    assert InCheckout(t.threads[e.thread].phase) && InCheckout(t.threads[j].phase);
  }

  /** Over every run: one request at a time at every point, exactly when every claim was orderly. */
  lemma {:induction false} OneAtATimeExactly(states: seq<State>, events: seq<Event>)
    requires IsRun(states, events)
    ensures (forall k :: 0 <= k < |states| ==> AtMostOneIn(states[k])) <==> IsOrderlyRun(states, events, |events|)
  {
    hide Step, AtMostOneIn, Orderly, Allowed;
    if IsOrderlyRun(states, events, |events|) {
      forall k | 0 <= k < |states| ensures AtMostOneIn(states[k]) { OneCheckoutAtATime(states, events, k); }
    } else {
      var k :| 0 <= k < |events| && !Orderly(states[k], events[k]);
      DisorderlyLetsTwoIn(states[k], events[k]);
      assert states[k + 1] == Step(states[k], events[k]);
    }
  }
}
