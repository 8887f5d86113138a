/**
 What each wallet operation does to the money, as its customer sees it: the balance of every origin of every wallet,
 and what is reserved. Together with the run theorems of WalletProofs this leaves no operation free to move other
 cents.
 */
module WalletEffects {
  import opened Common
  import opened WalletLedger
  import opened WalletProofs

  predicate ReservedAt(holds: seq<Hold>, holds': seq<Hold>, v: nat, w: nat, reserved: int) {
    Reserved(holds', v) == Reserved(holds, v) + (if v == w then reserved else 0)
  }

  /** The balance of wallet `v` is as before. */
  predicate KeepsAt(l: Ledger, l': Ledger, v: nat) {
    Balance(l', v) == Balance(l, v) && Total(l', v) == Total(l, v)
  }

  /** The balance of wallet `v` changes by `d`, origin by origin. */
  predicate MovesAt(l: Ledger, l': Ledger, v: nat, d: ByOrigin) {
    && Balance(l', v).paid == Balance(l, v).paid + d.paid
    && Balance(l', v).bonus == Balance(l, v).bonus + d.bonus
    && Balance(l', v).comp == Balance(l, v).comp + d.comp
    && Total(l', v) == Total(l, v) + d.paid + d.bonus + d.comp
  }

  predicate ChangesAt(l: Ledger, l': Ledger, v: nat, w: nat, d: ByOrigin, reserved: int) {
    && (if v == w then MovesAt(l, l', v, d) else KeepsAt(l, l', v))
    && ReservedAt(l.holds, l'.holds, v, w, reserved)
  }

  /** Wallet `w` changes by `d` and by `reserved`; no other wallet changes. */
  ghost predicate Changes(l: Ledger, l': Ledger, w: nat, d: ByOrigin, reserved: int) {
    forall v: nat :: ChangesAt(l, l', v, w, d, reserved)
  }

  predicate ReservesAt(l: Ledger, l': Ledger, v: nat, w: nat, reserved: int) {
    KeepsAt(l, l', v) && ReservedAt(l.holds, l'.holds, v, w, reserved)
  }

  /** No balance changes, and what is reserved changes in wallet `w` only. */
  ghost predicate Reserves(l: Ledger, l': Ledger, w: nat, reserved: int) {
    forall v: nat :: ReservesAt(l, l', v, w, reserved)
  }

  /** `amount` less: bonus first, paid credits once the bonus is gone, offered credits once both are. */
  predicate SpentInOrder(before: ByOrigin, after: ByOrigin, amount: int) {
    && after.Total == before.Total - amount && after.Within(before)
    && (after.paid < before.paid ==> after.bonus == 0)
    && (after.comp < before.comp ==> after.bonus == 0 && after.paid == 0)
  }

  /** That order leaves no choice. */
  lemma {:induction false} SpendingIsUnique(before: ByOrigin, a: ByOrigin, b: ByOrigin, amount: int)
    requires SpentInOrder(before, a, amount) && SpentInOrder(before, b, amount)
    ensures a == b
  {
  }

  lemma {:induction false} ShiftedChanges(l: Ledger, l': Ledger, v: nat, p: Purpose, b: ByOrigin, debit: bool,
      d: ByOrigin)
    requires Shifted(l.rows, l'.rows, v, Shift(p, b, debit, v)) && d == Shift(p, b, debit, p.wallet)
    ensures if v == p.wallet then MovesAt(l, l', v, d) else KeepsAt(l, l', v)
  {
    hide Sum;
  }

  lemma {:induction false} RowsChange(l: Ledger, holds: seq<Hold>, p: Purpose, b: ByOrigin, debit: bool, reserved: int)
    requires NonNeg(b) && AffectsBalance(p.kind)
    requires forall v: nat :: ReservedAt(l.holds, holds, v, p.wallet, reserved)
    ensures Changes(l, Ledger(l.rows + RowsOf(p, b, debit), holds), p.wallet, Shift(p, b, debit, p.wallet), reserved)
  {
    hide Sum, Reserved, RowsOf, Shifted, MovesAt, KeepsAt, Shift;
    RowsAreWritten(l.rows, p, b, debit);
    var l' := Ledger(l.rows + RowsOf(p, b, debit), holds);
    var d := Shift(p, b, debit, p.wallet);
    forall v: nat ensures ChangesAt(l, l', v, p.wallet, d, reserved) {
      WrittenShifts(l.rows, l'.rows, p, b, debit, v);
      ShiftedChanges(l, l', v, p, b, debit, d);
    }
  }

  lemma {:induction false} AuditReserves(l: Ledger, holds: seq<Hold>, r: Row, w: nat, reserved: int)
    requires !AffectsBalance(r.kind)
    requires forall v: nat :: ReservedAt(l.holds, holds, v, w, reserved)
    ensures Reserves(l, Ledger(l.rows + [r], holds), w, reserved)
  {
    hide Sum, Reserved, ReservedAt;
    RowIsWritten(l.rows, r);
    var l' := Ledger(l.rows + [r], holds);
    forall v: nat ensures ReservesAt(l, l', v, w, reserved) { AuditShiftsNothing(l.rows, l'.rows, r, v); }
  }

  lemma {:induction false} NothingChanges(l: Ledger, w: nat)
    ensures Reserves(l, l, w, 0)
  {
    hide Sum, Reserved;
  }

  /** Two writes to one wallet, then an audit row. */
  lemma {:induction false} ChangesCompose(a: Ledger, b: Ledger, c: Ledger, w: nat, d: ByOrigin, e: ByOrigin,
      sum: ByOrigin, r: int)
    requires Changes(a, b, w, d, r) && Changes(b, c, w, e, 0)
    requires sum.paid == d.paid + e.paid && sum.bonus == d.bonus + e.bonus && sum.comp == d.comp + e.comp
    ensures Changes(a, c, w, sum, r)
  {
    hide Balance, Total, Reserved;
    forall v: nat ensures ChangesAt(a, c, v, w, sum, r) {
      assert ChangesAt(a, b, v, w, d, r) && ChangesAt(b, c, v, w, e, 0);
    }
  }

  lemma {:induction false} AuditAfter(a: Ledger, b: Ledger, c: Ledger, w: nat, d: ByOrigin, r: int)
    requires Changes(a, b, w, d, r) && Reserves(b, c, w, 0)
    ensures Changes(a, c, w, d, r)
  {
    hide Balance, Total, Reserved;
    forall v: nat ensures ChangesAt(a, c, v, w, d, r) {
      assert ChangesAt(a, b, v, w, d, r) && ReservesAt(b, c, v, w, 0);
    }
  }

  lemma {:induction false} AvailableFollows(l: Ledger, l': Ledger, v: nat, w: nat, reserved: int)
    requires Reserves(l, l', w, reserved)
    ensures Available(l', v) == Available(l, v) - (if v == w then reserved else 0)
  {
    hide Sum, Reserved;
    assert ReservesAt(l, l', v, w, reserved);
  }

  lemma {:induction false} AvailableMoves(l: Ledger, l': Ledger, w: nat, d: ByOrigin, reserved: int)
    requires Changes(l, l', w, d, reserved)
    ensures Available(l', w) == Available(l, w) + d.Total - reserved
  {
    hide Sum, Reserved;
    assert ChangesAt(l, l', w, w, d, reserved);
  }

  // ---------------------------------------------------------------------
  // Credits
  // ---------------------------------------------------------------------

  /** A bought pack adds its price to the paid credits and its bonus to the bonus credits of the buyer. */
  lemma {:induction false} PackCredits(l: Ledger, w: nat, paidCents: int, bonusCents: int)
    requires paidCents >= 0 && bonusCents >= 0
    ensures Changes(l, Apply(l, CreditFromPackPurchase(w, paidCents, bonusCents)).0, w,
            ByOrigin(paidCents, bonusCents, 0), 0)
  {
    hide Sum, Reserved, RowsOf, Changes;
    var p := Purpose(w, CreditPackPurchase, None, None, None);
    var q := Purpose(w, CreditPackBonus, None, None, None);
    var paid, bonus := ByOrigin(paidCents, 0, 0), ByOrigin(0, bonusCents, 0);
    var x, y := RowsOf(p, paid, false), RowsOf(q, bonus, false);
    RowsChange(l, l.holds, p, paid, false, 0);
    RowsChange(Ledger(l.rows + x, l.holds), l.holds, q, bonus, false, 0);
    ChangesCompose(l, Ledger(l.rows + x, l.holds), Ledger(l.rows + x + y, l.holds), w, paid, bonus,
      ByOrigin(paidCents, bonusCents, 0), 0);
    assert (l.rows + x) + y == l.rows + (x + y);
  }

  /** An admin's credit is an offered one; a non-positive one is refused and changes nothing. */
  lemma {:induction false} AdminCredits(l: Ledger, w: nat, amount: int)
    ensures var (l', r) := Apply(l, CreditAdminOp(w, amount));
            && r == (if amount > 0 then Done else ValidationFailed)
            && (if amount > 0 then Changes(l, l', w, ByOrigin(0, 0, amount), 0) else l' == l)
  {
    hide Sum, Reserved, RowsOf, Changes;
    if amount > 0 {
      RowsChange(l, l.holds, Purpose(w, CreditAdmin, None, None, None), ByOrigin(0, 0, amount), false, 0);
    }
  }

  // ---------------------------------------------------------------------
  // Debits and refunds
  // ---------------------------------------------------------------------

  /** A debit succeeds exactly when the available balance covers it, and then spends it in the fixed order. */
  lemma {:induction false} DebitSpends(l: Ledger, p: Purpose, amount: int)
    requires WalletInv(l) && amount >= 0 && AffectsBalance(p.kind)
    ensures var (l', r) := Debit(l, p, amount);
            && r == (if amount <= Available(l, p.wallet) then Done
                     else InsufficientBalance(Available(l, p.wallet), amount))
            && (r != Done ==> l' == l)
            && (r == Done ==> Changes(l, l', p.wallet, Minus(Balance(l', p.wallet), Balance(l, p.wallet)), 0)
                              && SpentInOrder(Balance(l, p.wallet), Balance(l', p.wallet), amount))
  {
    hide Sum, Reserved, RowsOf;
    if amount <= Available(l, p.wallet) {
      var b := Greedy(amount, Balance(l, p.wallet));
      assert SolventAt(l, p.wallet);
      HoldAmountsNonNegative(l);
      ReservedNonNegative(l.holds, p.wallet);
      GreedyIsExact(amount, Balance(l, p.wallet));
      var l' := AddRows(l, RowsOf(p, b, true));
      RowsChange(l, l.holds, p, b, true, 0);
      assert ChangesAt(l, l', p.wallet, p.wallet, Shift(p, b, true, p.wallet), 0);
      assert Shift(p, b, true, p.wallet) == Minus(Balance(l', p.wallet), Balance(l, p.wallet));
    }
  }

  /** An admin's correction is a debit like any other; a non-positive one is refused. */
  lemma {:induction false} AdminDebits(l: Ledger, w: nat, amount: int)
    requires WalletInv(l)
    ensures var (l', r) := Apply(l, DebitAdmin(w, amount));
            && r == (if amount <= 0 then ValidationFailed else if amount <= Available(l, w) then Done
                     else InsufficientBalance(Available(l, w), amount))
            && (r != Done ==> l' == l)
            && (r == Done ==> Changes(l, l', w, Minus(Balance(l', w), Balance(l, w)), 0)
                              && SpentInOrder(Balance(l, w), Balance(l', w), amount))
  {
    hide WalletInv, Debit, Sum, Reserved, Changes;
    if amount > 0 { DebitSpends(l, Purpose(w, Adjustment, None, None, None), amount); }
  }

  /**
   The balance rises by the one breakdown of `amount` that gives every origin its share, and leftover cents in order;
   nothing else changes.
   */
  ghost predicate GivesBack(l: Ledger, l': Ledger, w: nat, amount: int, refundable: ByOrigin) {
    exists back: ByOrigin :: RefundedInOrder(amount, refundable, back) && Changes(l, l', w, back, 0)
  }

  lemma {:induction false} RefundGivesBack(l: Ledger, p: Purpose, amount: int, refundable: ByOrigin, b: ByOrigin)
    requires AffectsBalance(p.kind) && RefundedInOrder(amount, refundable, b)
    ensures GivesBack(l, AddRows(l, RowsOf(p, b, false)), p.wallet, amount, refundable)
  {
    hide Sum, Reserved, RowsOf;
    RowsChange(l, l.holds, p, b, false, 0);
    assert Changes(l, AddRows(l, RowsOf(p, b, false)), p.wallet, b, 0);
  }

  /**
   A booking refund succeeds exactly when it is refundable, and gives back exactly its amount; refused it changes
   nothing.
   */
  lemma {:induction false} BookingRefundReturns(l: Ledger, w: nat, booking: nat, amount: int)
    requires WalletInv(l) && amount >= 0
    ensures var (l', r) := Apply(l, RefundForBooking(w, booking, amount));
            var refundable := Minus(BookingDebits(l, booking), BookingRefunds(l, booking));
            && r == (if amount <= refundable.Total then Done else ValidationFailed)
            && (if r == Done then GivesBack(l, l', w, amount, refundable) else l' == l)
  {
    hide Sum, Reserved, RowsOf, Proportional, GivesBack, RefundedInOrder;
    var refundable := Minus(BookingDebits(l, booking), BookingRefunds(l, booking));
    assert RefundsOkFor(l, booking);
    if amount <= refundable.Total {
      LeftoversGoInOrder(amount, refundable);
      RefundGivesBack(l, Purpose(w, RefundBooking, Some(booking), None, None), amount, refundable,
        Proportional(amount, refundable));
    }
  }

  /** The same for a bar account. */
  lemma {:induction false} AccountRefundReturns(l: Ledger, w: nat, account: nat, amount: int)
    requires WalletInv(l) && amount >= 0
    ensures var (l', r) := Apply(l, RefundForAccount(w, account, amount));
            var refundable := Minus(AccountDebits(l, account), AccountRefunds(l, account));
            && r == (if amount <= refundable.Total then Done else ValidationFailed)
            && (if r == Done then GivesBack(l, l', w, amount, refundable) else l' == l)
  {
    hide Sum, Reserved, RowsOf, Proportional, GivesBack, RefundedInOrder;
    var refundable := Minus(AccountDebits(l, account), AccountRefunds(l, account));
    assert AccountOk(l, account);
    if amount <= refundable.Total {
      LeftoversGoInOrder(amount, refundable);
      RefundGivesBack(l, Purpose(w, RefundNextoreAccount, None, Some(account), None), amount, refundable,
        Proportional(amount, refundable));
    }
  }

  // ---------------------------------------------------------------------
  // Holds
  // ---------------------------------------------------------------------

  /** A hold succeeds exactly when the available balance covers it; it reserves its amount and moves no balance. */
  lemma {:induction false} HoldReserves(l: Ledger, w: nat, booking: nat, amount: int)
    ensures var (l', r) := Apply(l, CreateHold(w, booking, amount));
            && r == (if amount <= Available(l, w) then Done else InsufficientBalance(Available(l, w), amount))
            && Reserves(l, l', w, if r == Done then amount else 0)
  {
    hide Sum, Reserved, Reserves;
    if amount <= Available(l, w) {
      var h := Hold(w, booking, amount, Active);
      forall v: nat ensures ReservedAt(l.holds, l.holds + [h], v, w, amount) { ReservedAppend(l.holds, h, v); }
      AuditReserves(l, l.holds + [h], AuditRow(h, |l.holds|, HoldCreated, amount), w, amount);
    } else {
      NothingChanges(l, w);
    }
  }

  lemma {:induction false} HoldShrinks(l: Ledger, h: nat, changed: Hold, reserved: int)
    requires h < |l.holds| && changed.wallet == l.holds[h].wallet
             && reserved == ActiveAmount(changed) - ActiveAmount(l.holds[h])
    ensures var holds := l.holds[h := changed]; forall v: nat :: ReservedAt(l.holds, holds, v, changed.wallet, reserved)
  {
    hide Reserved;
    var holds := l.holds[h := changed];
    forall v: nat ensures ReservedAt(l.holds, holds, v, changed.wallet, reserved) {
      ReservedUpdate(l.holds, h, changed, v);
    }
  }

  /** Releasing gives back what is still reserved, partly or whole, and moves no balance. */
  lemma {:induction false} ReleaseFrees(l: Ledger, h: nat, amount: int)
    requires h < |l.holds| && amount >= 0 && l.holds[h].amount >= 0
    ensures var hold := l.holds[h];
            && Reserves(l, Apply(l, ReleaseHold(h)).0, hold.wallet, -ActiveAmount(hold))
            && Reserves(l, Apply(l, ReleaseHoldPartially(h, amount)).0, hold.wallet, -Min(amount, ActiveAmount(hold)))
  {
    hide Sum, Reserved, Reserves;
    var hold := l.holds[h];
    if hold.status.Active? {
      HoldShrinks(l, h, hold.(status := Released), -hold.amount);
      AuditReserves(l, l.holds[h := hold.(status := Released)], AuditRow(hold, h, HoldReleased, hold.amount),
        hold.wallet, -hold.amount);
      HoldShrinks(l, h, hold.(amount := hold.amount - amount), -amount);
      AuditReserves(l, l.holds[h := hold.(amount := hold.amount - amount)], AuditRow(hold, h, HoldReleased, amount),
        hold.wallet, -amount);
    } else {
      NothingChanges(l, hold.wallet);
    }
  }

  /**
   Capturing an active hold spends its amount in the fixed order and frees exactly that reservation, so availability
   is unchanged.
   */
  lemma {:induction false} CaptureSpends(l: Ledger, h: nat)
    requires WalletInv(l) && h < |l.holds| && l.holds[h].status.Active?
    ensures var (w, l') := (l.holds[h].wallet, Apply(l, CaptureHold(h)).0);
            && Changes(l, l', w, Minus(Balance(l', w), Balance(l, w)), -l.holds[h].amount)
            && SpentInOrder(Balance(l, w), Balance(l', w), l.holds[h].amount)
            && forall v: nat :: Available(l', v) == Available(l, v)
  {
    hide Sum, Reserved, RowsOf;
    var hold := l.holds[h];
    var w := hold.wallet;
    CaptureIsTotal(l, h);
    assert SolventAt(l, w);
    assert HoldOkAt(l, h);
    HoldAmountsNonNegative(l);
    ReservedCovers(l.holds, h);
    var g := Greedy(hold.amount, Balance(l, w));
    GreedyIsExact(hold.amount, Balance(l, w));
    hide Greedy;
    var p := Purpose(w, DebitBooking, Some(hold.booking), None, Some(h));
    var holds := l.holds[h := hold.(status := Captured)];
    HoldShrinks(l, h, hold.(status := Captured), -hold.amount);
    forall v: nat ensures ReservedAt(holds, holds, v, w, 0) {}
    var mid := Ledger(l.rows + RowsOf(p, g, true), holds);
    var l' := Apply(l, CaptureHold(h)).0;
    hide ReservedAt;
    RowsChange(l, holds, p, g, true, -hold.amount);
    AuditReserves(mid, holds, AuditRow(hold, h, HoldCaptured, hold.amount), w, 0);
    assert l'.rows == mid.rows + [AuditRow(hold, h, HoldCaptured, hold.amount)];
    AuditAfter(l, mid, l', w, Shift(p, g, true, w), -hold.amount);
    assert ChangesAt(l, l', w, w, Shift(p, g, true, w), -hold.amount);
    assert Shift(p, g, true, w) == Minus(Balance(l', w), Balance(l, w));
    forall v: nat ensures Available(l', v) == Available(l, v) {
      CaptureKeepsAvailable(l, l', v, w, Shift(p, g, true, w), hold.amount);
    }
  }

  lemma {:induction false} CaptureKeepsAvailable(l: Ledger, l': Ledger, v: nat, w: nat, d: ByOrigin, amount: int)
    requires Changes(l, l', w, d, -amount) && d.paid + d.bonus + d.comp == -amount
    ensures Available(l', v) == Available(l, v)
  {
    hide Sum, Reserved;
    assert ChangesAt(l, l', v, w, d, -amount);
  }

  /**
   The list of holds: an accepted hold is appended ACTIVE, only an ACTIVE hold changes, a release that covers what is
   left ends it and a smaller one leaves the rest ACTIVE; every other operation leaves the list alone.
   */
  lemma {:induction false} HoldsFollow(l: Ledger, op: Op)
    ensures op.ReleaseHold? || op.ReleaseHoldPartially? || op.CaptureHold? ==>
              (Apply(l, op).1 == NotFound <==> op.hold >= |l.holds|)
    ensures var holds := Apply(l, op).0.holds;
            match op
            case CreateHold(w, b, a) =>
              holds == l.holds + if a <= Available(l, w) then [Hold(w, b, a, Active)] else []
            case ReleaseHold(h) => HoldBecomes(l.holds, holds, h, Released, 0)
            case CaptureHold(h) => HoldBecomes(l.holds, holds, h, Captured, 0)
            case ReleaseHoldPartially(h, a) =>
              if h < |l.holds| && a >= l.holds[h].amount then HoldBecomes(l.holds, holds, h, Released, 0)
              else HoldBecomes(l.holds, holds, h, Active, a)
            case _ => holds == l.holds
  {
    hide Sum, Reserved, Greedy, Proportional, RowsOf;
  }

  /** Hold `h`, if it is ACTIVE, gets this status and loses this much of its amount; no other hold changes. */
  predicate HoldBecomes(holds: seq<Hold>, holds': seq<Hold>, h: nat, st: HoldStatus, less: int) {
    && |holds'| == |holds|
    && forall k: nat :: k < |holds| ==>
         holds'[k] == if k == h && holds[k].status.Active?
                      then Hold(holds[k].wallet, holds[k].booking, holds[k].amount - less, st) else holds[k]
  }

  // ---------------------------------------------------------------------
  // What a booking has been charged
  // ---------------------------------------------------------------------

  /** Debits minus refunds of a booking, all origins together. */
  function BookingNet(l: Ledger, booking: nat): int {
    BookingDebits(l, booking).Total - BookingRefunds(l, booking).Total
  }

  lemma {:induction false} WrittenMovesNet(l: Ledger, l': Ledger, p: Purpose, b: ByOrigin, debit: bool, booking: nat)
    requires RefundsOk(l) && NonNeg(b) && Written(l.rows, l'.rows, p, b, debit)
    requires if debit then p.kind.DebitBooking? else p.kind.RefundBooking?
    ensures BookingNet(l', booking) == BookingNet(l, booking)
            + (if p.booking == Some(booking) then Signed(!debit, b.Total) else 0)
  {
    hide Sum;
    assert DebitSigns(l, booking, Paid) && DebitSigns(l, booking, Bonus) && DebitSigns(l, booking, AdminComp);
  }

  /** A booking debit charges its booking and no other. */
  lemma {:induction false} DebitChargesBooking(l: Ledger, w: nat, charged: nat, amount: int, booking: nat)
    requires WalletInv(l) && amount >= 0
    ensures var (l', r) := Apply(l, DebitForBooking(w, charged, amount));
            BookingNet(l', booking) == BookingNet(l, booking) + (if r == Done && booking == charged then amount else 0)
  {
    hide Sum, Reserved, RowsOf, BookingNet;
    if amount <= Available(l, w) {
      var b := Greedy(amount, Balance(l, w));
      assert SolventAt(l, w);
      HoldAmountsNonNegative(l);
      ReservedNonNegative(l.holds, w);
      GreedyIsExact(amount, Balance(l, w));
      var p := Purpose(w, DebitBooking, Some(charged), None, None);
      RowsAreWritten(l.rows, p, b, true);
      WrittenMovesNet(l, AddRows(l, RowsOf(p, b, true)), p, b, true, booking);
    }
  }

  /**
   A booking refund is accepted exactly up to what the booking was charged, and gives it back to that booking only.
   */
  lemma {:induction false} RefundCreditsBooking(l: Ledger, w: nat, refunded: nat, amount: int, booking: nat)
    requires WalletInv(l) && amount >= 0
    ensures var (l', r) := Apply(l, RefundForBooking(w, refunded, amount));
            && (r == Done <==> amount <= BookingNet(l, refunded))
            && BookingNet(l', booking) == BookingNet(l, booking) - (if r == Done && booking == refunded then amount
              else 0)
  {
    hide Sum, Reserved, RowsOf, Proportional;
    var refundable := Minus(BookingDebits(l, refunded), BookingRefunds(l, refunded));
    assert RefundsOkFor(l, refunded);
    assert refundable.Total == BookingNet(l, refunded);
    if amount <= refundable.Total {
      var b := Proportional(amount, refundable);
      ProportionalIsFair(amount, refundable, Paid);
      var p := Purpose(w, RefundBooking, Some(refunded), None, None);
      RowsAreWritten(l.rows, p, b, false);
      hide BookingNet;
      WrittenMovesNet(l, AddRows(l, RowsOf(p, b, false)), p, b, false, booking);
    }
  }
}
