/**
 Where the money of a SPLIT booking comes from: what one payer pays, and over every run that what wallets and cards have
 been charged for the booking is what its payers and its organiser owe, and nothing else.
 */
module SplitMoney {
  import opened Common
  import opened WalletLedger
  import opened WalletProofs
  import opened WalletEffects
  import opened BookingCharges
  import opened SplitProtocol
  import opened SplitSettlement

  // ---------------------------------------------------------------------
  // One payer
  // ---------------------------------------------------------------------

  /** The wallet loses `amount` in the fixed order, for that booking; no other wallet or booking notices. */
  ghost predicate Spends(l: Ledger, l': Ledger, w: nat, booking: nat, amount: int) {
    && Changes(l, l', w, Minus(Balance(l', w), Balance(l, w)), 0)
    && SpentInOrder(Balance(l, w), Balance(l', w), amount)
    && l'.holds == l.holds
    && forall b: nat :: BookingNet(l', b) == BookingNet(l, b) + (if b == booking then amount else 0)
  }

  /**
   A payer with a claim pays exactly the total of its share, from its wallet or its card, or else nothing at all: by
   wallet exactly when that much is available, by card exactly when the card accepts.
   */
  lemma {:induction false} PayerPaysItsShare(s: Split, p: nat, ok: bool)
    requires WalletInv(s.ledger) && ShapeOk(s) && p < |s.payers| && s.payers[p].phase.Claimed?
    requires s.payers[p].amount == s.shares[s.payers[p].share].total >= 0
    ensures var me, t := s.payers[p], Step(s, Go(p, ok));
            var total := s.shares[me.share].total;
            var pays := if me.funding.Wallet? then total <= Available(s.ledger, me.funding.wallet) else ok;
            && t == s.(ledger := t.ledger, cards := t.cards, collected := t.collected, payers :=
                       s.payers[p := me.(phase := if pays then Collected else Refused(me.phase.status))])
            && t.collected == (if pays then s.collected[me.share := s.collected[me.share] + 1] else s.collected)
            && t.cards - s.cards == (if pays && me.funding.External? then total else 0)
            && (if pays && me.funding.Wallet? then Spends(s.ledger, t.ledger, me.funding.wallet, s.booking, total)
                else t.ledger == s.ledger)
  {
    hide Available, Sum, Reserved, BookingNet, WalletInv, Changes, SpentInOrder, Debit, Greedy, RowsOf;
    var me := s.payers[p];
    if me.funding.Wallet? {
      var w := me.funding.wallet;
      DebitSpends(s.ledger, Purpose(w, DebitBooking, Some(s.booking), None, None), me.amount);
      forall b: nat
        ensures BookingNet(Apply(s.ledger, Op.DebitForBooking(w, s.booking, me.amount)).0, b)
                == BookingNet(s.ledger, b) + Charge(s.ledger, Op.DebitForBooking(w, s.booking, me.amount), b) {
        OpChargesExactly(s.ledger, Op.DebitForBooking(w, s.booking, me.amount), b);
      }
      DebitKeepsHolds(s.ledger, w, s.booking, me.amount);
    }
  }

  lemma {:induction false} DebitKeepsHolds(l: Ledger, w: nat, booking: nat, amount: int)
    ensures Apply(l, Op.DebitForBooking(w, booking, amount)).0.holds == l.holds
  {
    hide Sum, Reserved, Greedy, RowsOf;
  }

  // ---------------------------------------------------------------------
  // Sums over payers
  // ---------------------------------------------------------------------

  /** Its share has been debited or charged. */
  predicate HasPaid(ph: Phase) {
    !(ph.Start? || ph.Seen? || ph.Claimed? || ph.Refused? || ph.Rejected?)
  }

  datatype Till = Wallets | Cards | InHand

  /** Paid from a wallet, paid by card, and paid but not yet marked. */
  predicate Counts(x: Payer, till: Till) {
    match till
    case Wallets => x.funding.Wallet? && HasPaid(x.phase)
    case Cards => x.funding.External? && HasPaid(x.phase)
    case InHand => x.phase.Collected?
  }

  function Taken(payers: seq<Payer>, till: Till): int {
    if payers == [] then 0
    else
      var x := payers[|payers| - 1];
      Taken(payers[..|payers| - 1], till) + (if Counts(x, till) then x.amount else 0)
  }

  lemma {:induction false} TakenUpdate(payers: seq<Payer>, p: nat, x: Payer, till: Till)
    requires p < |payers|
    ensures Taken(payers[p := x], till) == Taken(payers, till)
            - (if Counts(payers[p], till) then payers[p].amount else 0) + (if Counts(x, till) then x.amount else 0)
  {
    var n := |payers| - 1;
    if p == n {
      assert payers[p := x][..n] == payers[..n];
    } else {
      assert payers[p := x][..n] == payers[..n][p := x];
      TakenUpdate(payers[..n], p, x, till);
    }
  }

  lemma {:induction false} TakenAppend(payers: seq<Payer>, x: Payer, till: Till)
    ensures Taken(payers + [x], till) == Taken(payers, till) + (if Counts(x, till) then x.amount else 0)
  {
    assert (payers + [x])[..|payers|] == payers;
  }

  // ---------------------------------------------------------------------
  // Over every run
  // ---------------------------------------------------------------------

  /** What has been captured of the guarantee's hold. */
  function HoldTaken(s: Split): int {
    if s.g.kind.WalletReserve? && s.g.kind.hold < |s.ledger.holds| && s.ledger.holds[s.g.kind.hold].status.Captured?
    then s.ledger.holds[s.g.kind.hold].amount else 0
  }

  /** A run of fair steps in which nothing else is charged to this booking. */
  ghost predicate IsQuietRun(states: seq<Split>, events: seq<Event>) {
    IsRun(states, events) && forall k :: 0 <= k < |events| ==> Quiet(states[k], events[k])
  }

  predicate Quiet(s: Split, e: Event) { e.OtherWalletOp? ==> Charge(s.ledger, e.op, s.booking) == 0 }

  /** A sound state whose hold belongs to the booking. */
  ghost predicate Basis(s: Split) {
    Inv(s) && (s.g.kind.WalletReserve? ==> s.ledger.holds[s.g.kind.hold].booking == s.booking)
  }

  /** What wallets have been charged for the booking since `net`, and cards since `cards`. */
  ghost predicate Booked(s: Split, net: int, cards: int) {
    && BookingNet(s.ledger, s.booking) == net + Taken(s.payers, Wallets) + HoldTaken(s)
    && s.cards == cards + Taken(s.payers, Cards) + (if s.g.kind.CardOffSession? then s.g.captured else 0)
  }

  lemma {:induction false} MovePayer(s: Split, p: nat, ph: Phase)
    requires p < |s.payers|
    ensures var payers := s.payers[p := s.payers[p].(phase := ph)];
            var was, now := HasPaid(s.payers[p].phase), HasPaid(ph);
            var amount := (if now then s.payers[p].amount else 0) - (if was then s.payers[p].amount else 0);
            && Taken(payers, Wallets) == Taken(s.payers, Wallets) + (if s.payers[p].funding.Wallet? then amount else 0)
            && Taken(payers, Cards) == Taken(s.payers, Cards) + (if s.payers[p].funding.External? then amount else 0)
  {
    hide Taken;
    TakenUpdate(s.payers, p, s.payers[p].(phase := ph), Wallets);
    TakenUpdate(s.payers, p, s.payers[p].(phase := ph), Cards);
  }

  lemma {:induction false} CollectKeepsBooked(s: Split, p: nat, ok: bool, net: int, cards: int)
    requires Basis(s) && Booked(s, net, cards) && p < |s.payers| && s.payers[p].phase.Claimed?
    ensures Booked(Step(s, Go(p, ok)), net, cards)
  {
    hide WalletInv, BookingNet, Taken, Available, Changes, SpentInOrder, Step, Owed, ShareSum;
    assert PayerOk(s, s.payers[p]);
    PayerPaysItsShare(s, p, ok);
    MovePayer(s, p, Collected);
    MovePayer(s, p, Refused(s.payers[p].phase.status));
  }

  /** The conditional updates of the hold charge nothing. */
  lemma {:induction false} HoldUpdatesChargeNothing(s: Split, amount: int)
    requires s.g.kind.WalletReserve? && s.g.kind.hold < |s.ledger.holds|
    ensures var reduced := ReduceCas(s.ledger, s.g.kind.hold, amount);
            BookingNet(reduced, s.booking) == BookingNet(s.ledger, s.booking)
            && HoldTaken(s.(ledger := reduced)) == HoldTaken(s)
    ensures var released := ReleaseCas(s.ledger, s.g.kind.hold, amount);
            BookingNet(released, s.booking) == BookingNet(s.ledger, s.booking)
            && HoldTaken(s.(ledger := released)) == HoldTaken(s)
  {
    hide BookingNet;
    ReleaseLeavesNet(s.ledger, s.g.kind.hold, amount, s.booking);
  }

  /** What a step of a payer that is not paying can change, as far as the money goes. */
  lemma {:induction false} OtherStepsMoveNothing(s: Split, p: nat, ok: bool)
    requires ShapeOk(s) && p < |s.payers| && !s.payers[p].phase.Claimed?
    ensures var t := Step(s, Go(p, ok));
            && |t.payers| == |s.payers| && t.payers == s.payers[p := s.payers[p].(phase := t.payers[p].phase)]
            && HasPaid(t.payers[p].phase) == HasPaid(s.payers[p].phase)
            && t.booking == s.booking && t.cards == s.cards && t.g.kind == s.g.kind && t.g.captured == s.g.captured
    ensures var t := Step(s, Go(p, ok));
            || t.ledger == s.ledger
            || (s.g.kind.WalletReserve? && exists a :: t.ledger == ReduceCas(s.ledger, s.g.kind.hold, a)
                                                       || t.ledger == ReleaseCas(s.ledger, s.g.kind.hold, a))
  {
    hide ReduceCas, ReleaseCas;
    assert s.payers[p := s.payers[p]] == s.payers;
  }

  lemma {:induction false} GoKeepsBooked(s: Split, p: nat, ok: bool, net: int, cards: int)
    requires Basis(s) && Booked(s, net, cards) && p < |s.payers|
    ensures Booked(Step(s, Go(p, ok)), net, cards)
  {
    hide WalletInv, BookingNet, Taken, Step, ReduceCas, ReleaseCas, Owed, ShareSum;
    if s.payers[p].phase.Claimed? {
      CollectKeepsBooked(s, p, ok, net, cards);
    } else {
      var t := Step(s, Go(p, ok));
      OtherStepsMoveNothing(s, p, ok);
      MovePayer(s, p, t.payers[p].phase);
      if t.ledger != s.ledger {
        var a :| t.ledger == ReduceCas(s.ledger, s.g.kind.hold, a)
          || t.ledger == ReleaseCas(s.ledger, s.g.kind.hold, a);
        HoldUpdatesChargeNothing(s, a);
      }
    }
  }

  lemma {:induction false} CaptureMarks(l: Ledger, h: nat)
    requires WalletInv(l) && h < |l.holds|
    ensures Apply(l, CaptureHold(h)).0.holds ==
            if l.holds[h].status.Active? then l.holds[h := l.holds[h].(status := HoldStatus.Captured)] else l.holds
  {
    hide WalletInv, Sum, Reserved, Greedy, RowsOf;
    if l.holds[h].status.Active? { CaptureIsTotal(l, h); }
  }

  lemma {:induction false} SettleKeepsBooked(s: Split, ok: bool, net: int, cards: int)
    requires Basis(s) && Booked(s, net, cards)
    ensures Booked(Step(s, Settle(ok)), net, cards)
  {
    hide WalletInv, BookingNet, Taken, Apply, Cover, Owed, ShareSum;
    if s.g.kind.WalletReserve? {
      OpChargesExactly(s.ledger, CaptureHold(s.g.kind.hold), s.booking);
      CaptureMarks(s.ledger, s.g.kind.hold);
    }
  }

  lemma {:induction false} StepKeepsBooked(s: Split, e: Event, net: int, cards: int)
    requires Basis(s) && Booked(s, net, cards) && Quiet(s, e) && Fair(s, e)
    ensures Booked(Step(s, e), net, cards)
  {
    hide WalletInv, BookingNet, Taken, Apply, SettleStep, PayerStep, Charge, Owed, ShareSum;
    match e
    case Go(p, ok) => if p < |s.payers| { GoKeepsBooked(s, p, ok, net, cards); }
    case Settle(ok) => SettleKeepsBooked(s, ok, net, cards);
    case OtherWalletOp(op) =>
      OpChargesExactly(s.ledger, op, s.booking);
      HoldsOnlyGrow(s.ledger, op);
    case Arrive(i, f) =>
      if i < |s.shares| {
        TakenAppend(s.payers, Payer(i, s.shares[i].total, f, Start), Wallets);
        TakenAppend(s.payers, Payer(i, s.shares[i].total, f, Start), Cards);
      }
  }

  lemma {:induction false} HoldStaysOfBooking(l: Ledger, op: WalletLedger.Op, h: nat)
    requires h < |l.holds|
    ensures h < |Apply(l, op).0.holds| && Apply(l, op).0.holds[h].booking == l.holds[h].booking
  {
    hide Sum, Reserved, Greedy, Proportional, RowsOf;
  }

  lemma {:induction false} StepKeepsBasis(s: Split, e: Event)
    requires Basis(s) && Fair(s, e)
    ensures Basis(Step(s, e))
  {
    hide WalletInv, Apply, Owed, ShareSum, ReduceCas, ReleaseCas, Fair;
    StepKeepsInv(s, e);
    if s.g.kind.WalletReserve? {
      var h := s.g.kind.hold;
      HoldStaysOfBooking(s.ledger, CaptureHold(h), h);
      if e.OtherWalletOp? { HoldStaysOfBooking(s.ledger, e.op, h); }
      if e.Go? && e.p < |s.payers| { PayerKeepsHoldOfBooking(s, e.p, e.cardAccepted, h); }
    }
  }

  lemma {:induction false} PayerKeepsHoldOfBooking(s: Split, p: nat, ok: bool, h: nat)
    requires ShapeOk(s) && p < |s.payers| && h < |s.ledger.holds|
    ensures var l := PayerStep(s, p, ok).ledger; h < |l.holds| && l.holds[h].booking == s.ledger.holds[h].booking
  {
    hide Apply;
    var me := s.payers[p];
    if me.funding.Wallet? { DebitKeepsHolds(s.ledger, me.funding.wallet, s.booking, me.amount); }
  }

  // ---------------------------------------------------------------------
  // What is paid for
  // ---------------------------------------------------------------------

  /** Paid up are the organiser's share and those of the payers that were marked; the hold gave what was captured. */
  predicate PaidFor(s: Split, organizer: int) {
    && Taken(s.payers, Wallets) + Taken(s.payers, Cards)
       == ShareSum(s.shares, PaidUp) - organizer + Taken(s.payers, InHand)
    && (s.g.kind.WalletReserve? ==> HoldTaken(s) == s.g.captured)
  }

  lemma {:induction false} CollectKeepsPaidFor(s: Split, p: nat, ok: bool, organizer: int)
    requires Inv(s) && PaidFor(s, organizer) && p < |s.payers| && s.payers[p].phase.Claimed?
    ensures PaidFor(Step(s, Go(p, ok)), organizer)
  {
    hide WalletInv, BookingNet, Taken, Available, Changes, SpentInOrder, Step, Owed, ShareSum;
    var me := s.payers[p];
    assert PayerOk(s, me);
    PayerPaysItsShare(s, p, ok);
    MovePayer(s, p, Collected);
    MovePayer(s, p, Refused(me.phase.status));
    TakenUpdate(s.payers, p, me.(phase := Collected), InHand);
    TakenUpdate(s.payers, p, me.(phase := Refused(me.phase.status)), InHand);
  }

  /** Marking moves the amount from the hand to a paid share. */
  lemma {:induction false} MarkKeepsPaidFor(s: Split, p: nat, ok: bool, organizer: int)
    requires Inv(s) && PaidFor(s, organizer) && p < |s.payers| && s.payers[p].phase.Collected?
    ensures PaidFor(Step(s, Go(p, ok)), organizer)
  {
    hide WalletInv, Taken, Owed, ShareSum;
    var me := s.payers[p];
    assert PayerOk(s, me);
    MovePayer(s, p, Marked);
    TakenUpdate(s.payers, p, me.(phase := Marked), InHand);
    MoveShare(s, me.share, ShareStatus.Paid);
  }

  /** Steps that neither pay nor mark leave the paid shares and what is in hand. */
  lemma {:induction false} OtherStepsKeepShares(s: Split, p: nat, ok: bool)
    requires Inv(s) && p < |s.payers| && !s.payers[p].phase.Claimed? && !s.payers[p].phase.Collected?
    ensures var t := Step(s, Go(p, ok));
            && |t.payers| == |s.payers| && !t.payers[p].phase.Collected?
            && (t.shares == s.shares
                || exists st :: GroupOf(st) == Unpaid && t.shares == SetShare(s, s.payers[p].share, st).shares)
            && GroupOf(t.shares[s.payers[p].share].status) == GroupOf(s.shares[s.payers[p].share].status)
  {
    hide WalletInv, ReduceCas, ReleaseCas, Owed, ShareSum;
    assert PayerOk(s, s.payers[p]);
    var t := Step(s, Go(p, ok));
    if s.payers[p].phase.Refused? { assert GroupOf(s.payers[p].phase.status) == Unpaid; }
    if s.payers[p].phase.Seen? { assert GroupOf(PaymentPending) == Unpaid; }
  }

  lemma {:induction false} GoKeepsPaidFor(s: Split, p: nat, ok: bool, organizer: int)
    requires Inv(s) && PaidFor(s, organizer) && p < |s.payers|
    ensures PaidFor(Step(s, Go(p, ok)), organizer)
  {
    hide WalletInv, BookingNet, Taken, Step, ReduceCas, ReleaseCas, Owed, ShareSum;
    if s.payers[p].phase.Claimed? {
      CollectKeepsPaidFor(s, p, ok, organizer);
    } else if s.payers[p].phase.Collected? {
      MarkKeepsPaidFor(s, p, ok, organizer);
    } else {
      var t := Step(s, Go(p, ok));
      OtherStepsMoveNothing(s, p, ok);
      OtherStepsKeepShares(s, p, ok);
      MovePayer(s, p, t.payers[p].phase);
      TakenUpdate(s.payers, p, t.payers[p], InHand);
      if t.shares != s.shares {
        var st :| GroupOf(st) == Unpaid && t.shares == SetShare(s, s.payers[p].share, st).shares;
        MoveShare(s, s.payers[p].share, st);
      }
      if t.ledger != s.ledger {
        var a :| t.ledger == ReduceCas(s.ledger, s.g.kind.hold, a)
          || t.ledger == ReleaseCas(s.ledger, s.g.kind.hold, a);
        HoldUpdatesChargeNothing(s, a);
      }
    }
  }

  lemma {:induction false} SettleKeepsPaidFor(s: Split, ok: bool, organizer: int)
    requires Inv(s) && PaidFor(s, organizer) && Fair(s, Settle(ok))
    ensures PaidFor(Step(s, Settle(ok)), organizer)
  {
    hide WalletInv, Taken, Apply, Cover, Owed, ShareSum;
    CoverSums(s.shares);
    Bounds(s);
    if s.g.kind.WalletReserve? { CaptureMarks(s.ledger, s.g.kind.hold); }
  }

  lemma {:induction false} StepKeepsPaidFor(s: Split, e: Event, organizer: int)
    requires Inv(s) && PaidFor(s, organizer) && Fair(s, e)
    ensures PaidFor(Step(s, e), organizer)
  {
    hide WalletInv, Taken, Apply, SettleStep, PayerStep, Owed, ShareSum;
    match e
    case Go(p, ok) => if p < |s.payers| { GoKeepsPaidFor(s, p, ok, organizer); }
    case Settle(ok) => SettleKeepsPaidFor(s, ok, organizer);
    case OtherWalletOp(op) => HoldsOnlyGrow(s.ledger, op);
    case Arrive(i, f) =>
      if i < |s.shares| {
        var x := Payer(i, s.shares[i].total, f, Start);
        TakenAppend(s.payers, x, Wallets);
        TakenAppend(s.payers, x, Cards);
        TakenAppend(s.payers, x, InHand);
      }
  }

  // ---------------------------------------------------------------------
  // The theorem
  // ---------------------------------------------------------------------

  lemma {:induction false} StartIsPaidFor(s: Split)
    requires Confirmed(s)
    ensures Basis(s) && PaidFor(s, s.shares[0].total) && Booked(s, BookingNet(s.ledger, s.booking), s.cards)
  {
    hide WalletInv, BookingNet, PriceOf, ShareSum, Owed;
    ConfirmedInv(s);
    OnlyFirstPaid(s.shares);
  }

  lemma {:induction false} OnlyFirstPaid(shares: seq<Share>)
    requires |shares| > 0 && shares[0].status.Paid?
    requires forall i :: 0 < i < |shares| ==> shares[i].status.Open? || shares[i].status.Invited?
    ensures ShareSum(shares, PaidUp) == shares[0].total
  {
    var n := |shares| - 1;
    if n == 0 { assert shares[..n] == []; } else { OnlyFirstPaid(shares[..n]); }
  }

  lemma {:induction false} RunKeepsMoney(states: seq<Split>, events: seq<Event>, k: nat)
    requires IsQuietRun(states, events) && k < |states|
    ensures var s0 := states[0];
            && Basis(states[k]) && PaidFor(states[k], s0.shares[0].total)
            && Booked(states[k], BookingNet(s0.ledger, s0.booking), s0.cards)
  {
    hide WalletInv, BookingNet, Step, Fair, Quiet, Basis, Booked, PaidFor;
    if k == 0 {
      StartIsPaidFor(states[0]);
    } else {
      var s0 := states[0];
      RunKeepsMoney(states, events, k - 1);
      var s, e := states[k - 1], events[k - 1];
      assert Inv(s) by { hide Inv; RunKeepsInvOf(states, events, k - 1); }
      StepKeepsBooked(s, e, BookingNet(s0.ledger, s0.booking), s0.cards);
      StepKeepsPaidFor(s, e, s0.shares[0].total);
      StepKeepsBasis(s, e);
    }
  }

  lemma {:induction false} RunKeepsInvOf(states: seq<Split>, events: seq<Event>, k: nat)
    requires IsQuietRun(states, events) && k < |states|
    ensures Inv(states[k])
  {
    hide IsRun, Inv;
    SplitProtocol.RunKeepsInv(states, events, k);
  }

  /**
   At every point of every run: the wallets have been charged exactly for the shares paid by wallet and the captured
   hold, the cards exactly for the organiser's share, the shares paid by card and a guarantee captured by card; and
   both together are the paid shares, the captured guarantee, and what is paid but not yet marked.
   */
  lemma {:induction false} MoneyInIsExact(states: seq<Split>, events: seq<Event>, k: nat)
    requires IsQuietRun(states, events) && k < |states|
    ensures var s0, s := states[0], states[k];
            var wallets := BookingNet(s.ledger, s0.booking) - BookingNet(s0.ledger, s0.booking);
            && wallets == Taken(s.payers, Wallets) + (if s0.g.kind.WalletReserve? then s.g.captured else 0)
            && s.cards == s0.shares[0].total + Taken(s.payers, Cards)
                          + (if s0.g.kind.CardOffSession? then s.g.captured else 0)
            && wallets + s.cards == ShareSum(s.shares, PaidUp) + s.g.captured + Taken(s.payers, InHand)
  {
    hide WalletInv, BookingNet, Step, Fair, Quiet, Taken, ShareSum, Owed, Inv;
    RunKeepsMoney(states, events, k);
    NamesStay(states, events, k);
  }

  lemma {:induction false} NamesStay(states: seq<Split>, events: seq<Event>, k: nat)
    requires IsQuietRun(states, events) && k < |states|
    ensures states[k].booking == states[0].booking && states[k].g.kind == states[0].g.kind
  {
    hide WalletInv, Apply, Fair, Quiet, Inv, Confirmed;
    if k > 0 { NamesStay(states, events, k - 1); }
  }
}
