/** What every wallet operation charges to a booking: debits minus refunds move by exactly this, and by nothing else. */
module BookingCharges {
  import opened Common
  import opened WalletLedger
  import opened WalletProofs
  import opened WalletEffects

  /** A direct debit or refund that is accepted, or the capture of an active hold of that booking. */
  function Charge(l: Ledger, op: Op, booking: nat): int {
    match op
    case DebitForBooking(w, b, amount) => if b == booking && amount <= Available(l, w) then amount else 0
    case RefundForBooking(_, b, amount) => if b == booking && amount <= BookingNet(l, b) then -amount else 0
    case CaptureHold(h) =>
      if h < |l.holds| && l.holds[h].booking == booking && l.holds[h].status.Active? then l.holds[h].amount else 0
    case _ => 0
  }

  predicate IsAbout(r: Row, booking: nat) {
    (r.kind.DebitBooking? || r.kind.RefundBooking?) && r.booking == Some(booking)
  }

  lemma {:induction false} SumOfNone(rows: seq<Row>, q: Query)
    requires forall r :: r in rows ==> !Selects(q, r)
    ensures Sum(rows, q) == 0
  {
    if rows != [] { SumOfNone(rows[..|rows| - 1], q); }
  }

  lemma {:induction false} OtherRowsLeaveNet(l: Ledger, rows: seq<Row>, holds: seq<Hold>, booking: nat)
    requires forall r :: r in rows ==> !IsAbout(r, booking)
    ensures BookingNet(Ledger(l.rows + rows, holds), booking) == BookingNet(l, booking)
  {
    hide Sum;
    var l' := Ledger(l.rows + rows, holds);
    forall o ensures Sum(l'.rows, BookingRows(DebitBooking, booking, o)) ==
      Sum(l.rows, BookingRows(DebitBooking, booking, o)) {
      SumAppend(l.rows, rows, BookingRows(DebitBooking, booking, o));
      SumOfNone(rows, BookingRows(DebitBooking, booking, o));
    }
    forall o ensures Sum(l'.rows, BookingRows(RefundBooking, booking, o)) ==
      Sum(l.rows, BookingRows(RefundBooking, booking, o)) {
      SumAppend(l.rows, rows, BookingRows(RefundBooking, booking, o));
      SumOfNone(rows, BookingRows(RefundBooking, booking, o));
    }
  }

  lemma {:induction false} OtherPurposeLeavesNet(l: Ledger, p: Purpose, b: ByOrigin, debit: bool, booking: nat)
    requires !p.kind.DebitBooking? && !p.kind.RefundBooking?
    ensures BookingNet(AddRows(l, RowsOf(p, b, debit)), booking) == BookingNet(l, booking)
  {
    hide RowsOf, BookingNet;
    RowsAreAbout(p, b, debit);
    OtherRowsLeaveNet(l, RowsOf(p, b, debit), l.holds, booking);
  }

  lemma {:induction false} DebitLeavesNet(l: Ledger, p: Purpose, amount: int, booking: nat)
    requires !p.kind.DebitBooking? && !p.kind.RefundBooking?
    ensures BookingNet(Debit(l, p, amount).0, booking) == BookingNet(l, booking)
  {
    hide RowsOf, BookingNet, Greedy, Available, Balance;
    OtherPurposeLeavesNet(l, p, Greedy(amount, Balance(l, p.wallet)), true, booking);
  }

  lemma {:induction false} RefundLeavesNet(l: Ledger, p: Purpose, amount: int, refundable: ByOrigin, booking: nat)
    requires !p.kind.DebitBooking? && !p.kind.RefundBooking?
    ensures BookingNet(Refund(l, p, amount, refundable).0, booking) == BookingNet(l, booking)
  {
    hide RowsOf, BookingNet, Proportional;
    OtherPurposeLeavesNet(l, p, Proportional(amount, refundable), false, booking);
  }

  lemma {:induction false} PackLeavesNet(l: Ledger, w: nat, paidCents: int, bonusCents: int, booking: nat)
    ensures BookingNet(AddRows(l, PackRows(w, paidCents, bonusCents)), booking) == BookingNet(l, booking)
  {
    hide RowsOf, BookingNet;
    RowsAreAbout(Purpose(w, CreditPackPurchase, None, None, None), ByOrigin(paidCents, 0, 0), false);
    RowsAreAbout(Purpose(w, CreditPackBonus, None, None, None), ByOrigin(0, bonusCents, 0), false);
    OtherRowsLeaveNet(l, PackRows(w, paidCents, bonusCents), l.holds, booking);
  }

  /** The audit rows of holds are no charges. */
  lemma {:induction false} AuditLeavesNet(l: Ledger, h: Hold, id: nat, kind: Kind, amount: int, holds: seq<Hold>,
      booking: nat)
    requires !kind.DebitBooking? && !kind.RefundBooking?
    ensures BookingNet(Ledger(l.rows + [AuditRow(h, id, kind, amount)], holds), booking) == BookingNet(l, booking)
  {
    hide BookingNet;
    OtherRowsLeaveNet(l, [AuditRow(h, id, kind, amount)], holds, booking);
  }

  /** A capture charges the booking of its hold with the whole hold, and no other booking. */
  lemma {:induction false} CaptureChargesBooking(l: Ledger, h: nat, booking: nat)
    requires WalletInv(l) && h < |l.holds|
    ensures BookingNet(Apply(l, CaptureHold(h)).0, booking) == BookingNet(l, booking)
            + Charge(l, CaptureHold(h), booking)
  {
    hide Sum, Reserved, RowsOf, Greedy, BookingNet;
    var x := l.holds[h];
    if x.status.Active? {
      var g := Greedy(x.amount, Balance(l, x.wallet));
      CaptureIsTotal(l, h);
      assert SolventAt(l, x.wallet) && HoldOkAt(l, h);
      GreedyIsExact(x.amount, Balance(l, x.wallet));
      var p := Purpose(x.wallet, DebitBooking, Some(x.booking), None, Some(h));
      var mid := AddRows(l, RowsOf(p, g, true));
      RowsAreWritten(l.rows, p, g, true);
      WrittenMovesNet(l, mid, p, g, true, booking);
      var l' := Apply(l, CaptureHold(h)).0;
      AuditLeavesNet(mid, x, h, HoldCaptured, x.amount, l'.holds, booking);
      assert l'.rows == mid.rows + [AuditRow(x, h, HoldCaptured, x.amount)];
    }
  }

  /** Every operation moves what a booking has been charged by exactly its charge. */
  lemma {:induction false} OpChargesExactly(l: Ledger, op: Op, booking: nat)
    requires WalletInv(l) && NonNegative(op)
    ensures BookingNet(Apply(l, op).0, booking) == BookingNet(l, booking) + Charge(l, op, booking)
  {
    hide Sum, Reserved, RowsOf, Greedy, Proportional, BookingNet, Available, Debit, Refund, Capture, PackRows,
      WalletInv;
    match op
    case CreditFromPackPurchase(w, p, b) => PackLeavesNet(l, w, p, b, booking);
    case CreditAdminOp(w, a) =>
      OtherPurposeLeavesNet(l, Purpose(w, CreditAdmin, None, None, None), ByOrigin(0, 0, a), false, booking);
    case DebitAdmin(w, a) => DebitLeavesNet(l, Purpose(w, Adjustment, None, None, None), a, booking);
    case DebitForBooking(w, b, a) =>
      DebitChargesBooking(l, w, b, a, booking);
      DebitSpends(l, Purpose(w, DebitBooking, Some(b), None, None), a);
    case RefundForBooking(w, b, a) => RefundCreditsBooking(l, w, b, a, booking);
    case DebitForAccount(w, n, a) => DebitLeavesNet(l, Purpose(w, DebitNextoreAccount, None, Some(n), None), a,
      booking);
    case RefundForAccount(w, n, a) =>
      RefundLeavesNet(l, Purpose(w, RefundNextoreAccount, None, Some(n), None), a,
                      Minus(AccountDebits(l, n), AccountRefunds(l, n)), booking);
    case CreateHold(w, b, a) =>
      var h := Hold(w, b, a, Active);
      AuditLeavesNet(l, h, |l.holds|, HoldCreated, a, l.holds + [h], booking);
    case ReleaseHold(h) => if h < |l.holds| { ReleaseLeavesNet(l, h, l.holds[h].amount, booking); }
    case ReleaseHoldPartially(h, a) =>
      if h < |l.holds| {
        ReleaseLeavesNet(l, h, l.holds[h].amount, booking);
        ReleaseLeavesNet(l, h, a, booking);
      }
    case CaptureHold(h) => if h < |l.holds| { CaptureChargesBooking(l, h, booking); }
  }

  lemma {:induction false} ReleaseLeavesNet(l: Ledger, h: nat, amount: int, booking: nat)
    requires h < |l.holds|
    ensures BookingNet(ReleaseCas(l, h, amount), booking) == BookingNet(l, booking)
    ensures BookingNet(ReduceCas(l, h, amount), booking) == BookingNet(l, booking)
  {
    hide BookingNet;
    var x := l.holds[h];
    AuditLeavesNet(l, x, h, HoldReleased, amount, l.holds[h := x.(status := Released)], booking);
    AuditLeavesNet(l, x, h, HoldReleased, amount, l.holds[h := x.(amount := x.amount - amount)], booking);
  }

  // ---------------------------------------------------------------------
  // The life of one hold
  // ---------------------------------------------------------------------

  /** The wallet after a hold on `w` has been opened and has come to stand at `st`. */
  ghost function Leg(l: Ledger, w: nat, booking: nat, amount: int, st: HoldStatus): Ledger {
    var held := Apply(l, CreateHold(w, booking, amount)).0;
    match st
    case Active => held
    case Released => Apply(held, ReleaseHold(|l.holds|)).0
    case Captured => Apply(held, CaptureHold(|l.holds|)).0
  }

  /** One new hold; captured it has charged the booking, released it has cost the customer nothing. */
  lemma {:induction false} LegIsOneHold(l: Ledger, w: nat, booking: nat, amount: int, st: HoldStatus)
    requires WalletInv(l) && 0 <= amount <= Available(l, w)
    ensures var t := Leg(l, w, booking, amount, st);
            && WalletInv(t) && t.holds == l.holds + [Hold(w, booking, amount, st)]
            && Available(t, w) == Available(l, w) - (if st.Released? then 0 else amount)
            && Total(t, w) == Total(l, w) - (if st.Captured? then amount else 0)
            && BookingNet(t, booking) == BookingNet(l, booking) + (if st.Captured? then amount else 0)
  {
    hide WalletInv, Sum, Reserved, BookingNet, Greedy, RowsOf;
    var h := |l.holds|;
    var held := Apply(l, CreateHold(w, booking, amount)).0;
    ApplyKeepsInv(l, CreateHold(w, booking, amount));
    HoldReserves(l, w, booking, amount);
    OpChargesExactly(l, CreateHold(w, booking, amount), booking);
    assert ReservesAt(l, held, w, w, amount);
    ApplyKeepsInv(held, ReleaseHold(h));
    ReleaseFrees(held, h, amount);
    OpChargesExactly(held, ReleaseHold(h), booking);
    assert ReservesAt(held, Apply(held, ReleaseHold(h)).0, w, w, -amount);
    ApplyKeepsInv(held, CaptureHold(h));
    CaptureSpends(held, h);
    CaptureIsTotal(held, h);
    OpChargesExactly(held, CaptureHold(h), booking);
    var captured := Apply(held, CaptureHold(h)).0;
    assert ChangesAt(held, captured, w, w, Minus(Balance(captured, w), Balance(held, w)), -amount);
  }
}
