/**
 What every run of wallet operations keeps: solvency per origin, reservations covered by
 the balance, hold conservation, and refunds bounded by debits.
 */
module WalletProofs {
  import opened Common
  import opened WalletLedger

  // ---------------------------------------------------------------------
  // The allocators
  // ---------------------------------------------------------------------

  /** All or nothing: a sufficient balance is always split exactly, origin by origin, never above any origin. */
  lemma {:induction false} GreedyIsExact(amount: int, available: ByOrigin)
    requires 0 <= amount <= available.Total
    requires available.paid >= 0 && available.bonus >= 0 && available.comp >= 0
    ensures var g := Greedy(amount, available);
            && g.Total == amount && g.Within(available)
            && (g.paid + g.comp > 0 ==> g.bonus == available.bonus)
            && (g.comp > 0 ==> g.paid == available.paid)
  {
  }

  /** The exact condition under which `allocateAcrossOrigins` reaches its inconsistency throw. */
  lemma {:induction false} GreedyFailsExactlyWhenShort(amount: int, available: ByOrigin)
    requires amount >= 0
    ensures Greedy(amount, available).Total < amount
            <==> Max(0, available.paid) + Max(0, available.bonus) + Max(0, available.comp) < amount
  {
  }

  lemma {:induction false} Cancel(t: int, s: int, exact: int, bound: int)
    requires t > 0 && 0 <= exact && exact - t < t * s <= exact <= t * bound
    ensures 0 <= s <= bound
  {
    assert s < 0 ==> t * s <= -t;
    assert s > bound ==> t * s >= t * (bound + 1);
  }

  lemma {:induction false} FloorShare(part: int, amount: int, total: int)
    requires 0 <= part <= total && 0 <= amount < total
    ensures var s := Share(part, amount, total);
            0 <= s <= part && part * amount - total < total * s <= part * amount
  {
    var s := (part * amount) / total;
    assert part * amount == total * s + (part * amount) % total;
    Cancel(total, s, part * amount, part);
  }

  /**
   A partial refund hands out exactly the requested cents, never more than is refundable on any
   origin, and each origin is off its exact pro-rata share by more than -1 and at most +2 cents
   (stated without division, multiplied by the total).
   */
  lemma {:induction false} ProportionalIsFair(amount: int, r: ByOrigin, o: Origin)
    requires r.paid >= 0 && r.bonus >= 0 && r.comp >= 0
    requires 0 <= amount <= r.Total
    ensures Proportional(amount, r).Total == amount
    ensures Proportional(amount, r).Within(r)
    ensures var t := r.Total;
            t > 0 ==> -t < t * Proportional(amount, r).Of(o) - r.Of(o) * amount <= 2 * t
  {
    var t := r.Total;
    if t == 0 {
    } else if amount == t {
      assert t * r.Of(o) == r.Of(o) * amount;
    } else {
      FloorShare(r.bonus, amount, t);
      FloorShare(r.paid, amount, t);
      FloorShare(r.comp, amount, t);
      var b, p, c := Share(r.bonus, amount, t), Share(r.paid, amount, t), Share(r.comp, amount, t);
      ResidualIsSmall(amount, r, b, p, c);
      var got := Proportional(amount, r);
      assert 0 <= got.bonus - b <= 2 && 0 <= got.paid - p <= 2 && 0 <= got.comp - c <= 2;
      ScaledDeviation(t, r.bonus * amount, b, got.bonus - b);
      ScaledDeviation(t, r.paid * amount, p, got.paid - p);
      ScaledDeviation(t, r.comp * amount, c, got.comp - c);
    }
  }

  lemma {:induction false} ResidualIsSmall(amount: int, r: ByOrigin, b: int, p: int, c: int)
    requires var t := r.Total;
             && t > 0
             && r.bonus * amount - t < t * b <= r.bonus * amount
             && r.paid * amount - t < t * p <= r.paid * amount
             && r.comp * amount - t < t * c <= r.comp * amount
    ensures 0 <= amount - (b + p + c) <= 2
  {
    var t := r.Total;
    var s := b + p + c;
    assert t * s == t * b + t * p + t * c;
    assert t * amount == r.bonus * amount + r.paid * amount + r.comp * amount;
    var d := amount - s;
    assert t * d == t * amount - t * s;
    assert 0 <= t * d < 3 * t;
    assert d < 0 ==> t * d <= -t;
    assert d > 2 ==> t * d >= 3 * t;
  }

  /**
   Every origin gets at least its exact share rounded down; paid credits get more only once the bonus is back in full,
   offered ones only once both are (stated without division, multiplied by the total).
   */
  predicate RefundedInOrder(amount: int, r: ByOrigin, got: ByOrigin) {
    var t := r.Total;
    && got.Total == amount && got.Within(r)
    && (t > 0 ==>
          && t * got.bonus > r.bonus * amount - t && t * got.paid > r.paid * amount - t
          && t * got.comp > r.comp * amount - t)
    && (t * got.paid > r.paid * amount ==> got.bonus == r.bonus)
    && (t * got.comp > r.comp * amount ==> got.bonus == r.bonus && got.paid == r.paid)
  }

  lemma {:induction false} LeftoversGoInOrder(amount: int, r: ByOrigin)
    requires r.paid >= 0 && r.bonus >= 0 && r.comp >= 0
    requires 0 <= amount <= r.Total
    ensures RefundedInOrder(amount, r, Proportional(amount, r))
  {
    var t := r.Total;
    ProportionalIsFair(amount, r, Paid);
    ProportionalIsFair(amount, r, Bonus);
    ProportionalIsFair(amount, r, AdminComp);
    var got := Proportional(amount, r);
    if t == 0 {
    } else if amount == t {
      assert t * got.paid == r.paid * amount && t * got.comp == r.comp * amount;
    } else {
      FloorShare(r.bonus, amount, t);
      FloorShare(r.paid, amount, t);
      FloorShare(r.comp, amount, t);
      assert got.paid == Share(r.paid, amount, t) || got.bonus == r.bonus;
      assert got.comp == Share(r.comp, amount, t) || (got.bonus == r.bonus && got.paid == r.paid);
    }
  }

  lemma {:induction false} RoundedDown(t: int, exact: int, floor: int, got: int)
    requires t > 0 && exact - t < t * floor <= exact && t * got > exact - t
    ensures got >= floor && (t * got > exact <==> got > floor)
  {
    assert got < floor ==> t * got <= t * (floor - 1);
    assert got > floor ==> t * got >= t * (floor + 1);
  }

  /** That leaves no choice. */
  lemma {:induction false} RefundOrderIsUnique(amount: int, r: ByOrigin, x: ByOrigin, y: ByOrigin)
    requires r.paid >= 0 && r.bonus >= 0 && r.comp >= 0
    requires 0 <= amount <= r.Total
    requires RefundedInOrder(amount, r, x) && RefundedInOrder(amount, r, y)
    ensures x == y
  {
    var t := r.Total;
    if amount < t {
      FloorShare(r.bonus, amount, t);
      FloorShare(r.paid, amount, t);
      FloorShare(r.comp, amount, t);
      var b, p, c := Share(r.bonus, amount, t), Share(r.paid, amount, t), Share(r.comp, amount, t);
      hide Share;
      RoundedDown(t, r.bonus * amount, b, x.bonus);
      RoundedDown(t, r.bonus * amount, b, y.bonus);
      RoundedDown(t, r.paid * amount, p, x.paid);
      RoundedDown(t, r.paid * amount, p, y.paid);
      RoundedDown(t, r.comp * amount, c, x.comp);
      RoundedDown(t, r.comp * amount, c, y.comp);
    }
  }

  lemma {:induction false} ScaledDeviation(t: int, exact: int, floor: int, add: int)
    requires t > 0 && exact - t < t * floor <= exact && 0 <= add <= 2
    ensures -t < t * (floor + add) - exact <= 2 * t
  {
    assert t * (floor + add) == t * floor + t * add;
    assert 0 <= t * add <= 2 * t;
  }

  // ---------------------------------------------------------------------
  // Sums over appended rows
  // ---------------------------------------------------------------------

  lemma {:induction false} SumAppend(rows: seq<Row>, more: seq<Row>, q: Query)
    ensures Sum(rows + more, q) == Sum(rows, q) + Sum(more, q)
  {
    if more == [] {
      assert rows + more == rows;
    } else {
      var n := |more| - 1;
      assert (rows + more)[..|rows| + n] == rows + more[..n];
      SumAppend(rows, more[..n], q);
    }
  }

  predicate NonNeg(b: ByOrigin) { b.paid >= 0 && b.bonus >= 0 && b.comp >= 0 }

  /** Does this query look at rows written for `p`? */
  predicate Concerns(p: Purpose, q: Query) {
    match q
    case BalanceTotal(w) => p.wallet == w && AffectsBalance(p.kind)
    case BalanceOf(w, _) => p.wallet == w && AffectsBalance(p.kind)
    case BookingRows(k, b, _) => p.kind == k && p.booking == Some(b)
    case AccountRows(k, a, _) => p.kind == k && p.account == Some(a)
    case HoldRows(k, h) => p.kind == k && p.hold == Some(h)
  }

  /** How many cents of the breakdown the query sees. */
  function Seen(b: ByOrigin, q: Query): int {
    match q
    case BalanceTotal(_) => b.Total
    case BalanceOf(_, o) => b.Of(o)
    case BookingRows(_, _, o) => b.Of(o)
    case AccountRows(_, _, o) => b.Of(o)
    case HoldRows(_, _) => b.Total
  }

  function Effect(p: Purpose, b: ByOrigin, debit: bool, q: Query): int {
    if Concerns(p, q) then Signed(debit, Seen(b, q)) else 0
  }

  lemma {:induction false} SumEmpty(rows: seq<Row>)
    requires rows == []
    ensures forall q :: Sum(rows, q) == 0
  {
  }

  lemma {:induction false} SumSingle(r: Row, q: Query)
    ensures Sum([r], q) == if Selects(q, r) then r.amount else 0
  {
    assert [r][..0] == [];
    assert Sum([r][..0], q) == 0;
  }

  lemma {:induction false} SumOptional(p: Purpose, o: Origin, amount: int, debit: bool, q: Query)
    requires amount >= 0
    ensures Sum(OptionalRow(p, o, amount, debit), q)
            == if Selects(q, OriginRow(p, o, 0)) then Signed(debit, amount) else 0
  {
    if amount > 0 { SumSingle(OriginRow(p, o, Signed(debit, amount)), q); }
  }

  lemma {:induction false} SumRowsOf(p: Purpose, b: ByOrigin, debit: bool, q: Query)
    requires NonNeg(b)
    ensures Sum(RowsOf(p, b, debit), q) == Effect(p, b, debit, q)
  {
    var x, y, z := OptionalRow(p, Bonus, b.bonus, debit), OptionalRow(p, Paid, b.paid, debit),
      OptionalRow(p, AdminComp, b.comp, debit);
    SumAppend(x + y, z, q);
    SumAppend(x, y, q);
    SumOptional(p, Bonus, b.bonus, debit, q);
    SumOptional(p, Paid, b.paid, debit, q);
    SumOptional(p, AdminComp, b.comp, debit, q);
  }

  /** `after` is `before` with the rows of one breakdown appended, as every sum sees it. */
  ghost predicate Written(before: seq<Row>, after: seq<Row>, p: Purpose, b: ByOrigin, debit: bool) {
    forall q :: Sum(after, q) == Sum(before, q) + Effect(p, b, debit, q)
  }

  lemma {:induction false} RowsAreWritten(rows: seq<Row>, p: Purpose, b: ByOrigin, debit: bool)
    requires NonNeg(b)
    ensures Written(rows, rows + RowsOf(p, b, debit), p, b, debit)
  {
    hide RowsOf, Effect;
    forall q ensures Sum(rows + RowsOf(p, b, debit), q) == Sum(rows, q) + Effect(p, b, debit, q) {
      SumAppend(rows, RowsOf(p, b, debit), q);
      SumRowsOf(p, b, debit, q);
    }
  }

  function ActiveAmount(h: Hold): int { if h.status.Active? then h.amount else 0 }

  lemma {:induction false} ReservedAppend(holds: seq<Hold>, h: Hold, w: nat)
    ensures Reserved(holds + [h], w) == Reserved(holds, w) + (if h.wallet == w then ActiveAmount(h) else 0)
  {
    assert (holds + [h])[..|holds|] == holds;
  }

  lemma {:induction false} ReservedUpdate(holds: seq<Hold>, i: nat, h: Hold, w: nat)
    requires i < |holds|
    ensures Reserved(holds[i := h], w) ==
            Reserved(holds, w) - (if holds[i].wallet == w then ActiveAmount(holds[i]) else 0)
                               + (if h.wallet == w then ActiveAmount(h) else 0)
  {
    var n := |holds| - 1;
    if i == n {
      assert holds[i := h][..n] == holds[..n];
    } else {
      assert holds[i := h][..n] == holds[..n][i := h];
      ReservedUpdate(holds[..n], i, h, w);
    }
  }

  lemma {:induction false} ReservedCovers(holds: seq<Hold>, i: nat)
    requires i < |holds| && holds[i].status.Active?
    requires forall h :: h in holds ==> h.amount >= 0
    ensures holds[i].amount <= Reserved(holds, holds[i].wallet)
    ensures Reserved(holds, holds[i].wallet) >= 0
  {
    var n := |holds| - 1;
    if i == n {
      ReservedNonNegative(holds[..n], holds[i].wallet);
    } else {
      ReservedCovers(holds[..n], i);
    }
  }

  lemma {:induction false} ReservedNonNegative(holds: seq<Hold>, w: nat)
    requires forall h :: h in holds ==> h.amount >= 0
    ensures Reserved(holds, w) >= 0
  {
    if holds != [] { ReservedNonNegative(holds[..|holds| - 1], w); }
  }

  // ---------------------------------------------------------------------
  // The invariant
  // ---------------------------------------------------------------------

  predicate RowOk(r: Row, holdCount: nat) {
    && (AffectsBalance(r.kind) ==> r.origin.Some?)
    && (r.kind.DebitBooking? || r.kind.DebitNextoreAccount? ==> r.amount <= 0)
    && (r.hold.Some? ==> r.hold.value < holdCount)
  }

  ghost predicate RowsOk(l: Ledger) {
    forall r :: r in l.rows ==> RowOk(r, |l.holds|)
  }

  /** No origin is overdrawn and what is reserved is really there. */
  predicate SolventAt(l: Ledger, w: nat) {
    && Balance(l, w).paid >= 0 && Balance(l, w).bonus >= 0 && Balance(l, w).comp >= 0
    && Total(l, w) == Balance(l, w).Total
    && Reserved(l.holds, w) <= Total(l, w)
  }

  /** Created = released + captured + still active, and the booking debits of a hold are what was captured. */
  predicate HoldOkAt(l: Ledger, i: nat)
    requires i < |l.holds|
  {
    && l.holds[i].amount >= 0
    && Sum(l.rows, HoldRows(HoldCreated, i))
       == Sum(l.rows, HoldRows(HoldReleased, i)) + Sum(l.rows, HoldRows(HoldCaptured, i)) + ActiveAmount(l.holds[i])
    && Sum(l.rows, HoldRows(DebitBooking, i)) == -Sum(l.rows, HoldRows(HoldCaptured, i))
    && Sum(l.rows, HoldRows(HoldCaptured, i)) == if l.holds[i].status.Captured? then l.holds[i].amount else 0
  }

  predicate RefundsOkFor(l: Ledger, booking: nat) {
    BookingRefunds(l, booking).Within(BookingDebits(l, booking))
  }

  predicate AccountOk(l: Ledger, account: nat) {
    AccountRefunds(l, account).Within(AccountDebits(l, account))
  }

  predicate DebitSigns(l: Ledger, n: nat, o: Origin) {
    && Sum(l.rows, BookingRows(DebitBooking, n, o)) <= 0
    && Sum(l.rows, AccountRows(DebitNextoreAccount, n, o)) <= 0
  }

  ghost predicate Solvent(l: Ledger) { forall w: nat :: SolventAt(l, w) }

  ghost predicate HoldsOk(l: Ledger) { forall i: nat :: i < |l.holds| ==> HoldOkAt(l, i) }

  ghost predicate RefundsOk(l: Ledger) {
    && (forall n: nat, o :: DebitSigns(l, n, o))
    && (forall b: nat :: RefundsOkFor(l, b))
    && (forall a: nat :: AccountOk(l, a))
  }

  ghost predicate WalletInv(l: Ledger) {
    RowsOk(l) && Solvent(l) && HoldsOk(l) && RefundsOk(l)
  }

  lemma {:induction false} EmptyInv()
    ensures WalletInv(EMPTY)
  {
  }

  // ---------------------------------------------------------------------
  // Each kind of write keeps it
  // ---------------------------------------------------------------------

  /** What a breakdown must satisfy to be debited: within each origin and within what is not reserved. */
  predicate Affordable(l: Ledger, p: Purpose, b: ByOrigin) {
    b.Within(Balance(l, p.wallet)) && b.Total <= Available(l, p.wallet)
  }

  /** The four balance sums of one wallet move together, by `d`. */
  predicate Shifted(before: seq<Row>, after: seq<Row>, w: nat, d: ByOrigin) {
    && Sum(after, BalanceTotal(w)) == Sum(before, BalanceTotal(w)) + d.Total
    && Sum(after, BalanceOf(w, Paid)) == Sum(before, BalanceOf(w, Paid)) + d.paid
    && Sum(after, BalanceOf(w, Bonus)) == Sum(before, BalanceOf(w, Bonus)) + d.bonus
    && Sum(after, BalanceOf(w, AdminComp)) == Sum(before, BalanceOf(w, AdminComp)) + d.comp
  }

  function Shift(p: Purpose, b: ByOrigin, debit: bool, w: nat): ByOrigin {
    if w != p.wallet then ByOrigin(0, 0, 0)
    else if debit then Minus(ByOrigin(0, 0, 0), b) else b
  }

  lemma {:induction false} WrittenShifts(before: seq<Row>, after: seq<Row>, p: Purpose, b: ByOrigin, debit: bool,
      w: nat)
    requires Written(before, after, p, b, debit) && AffectsBalance(p.kind)
    ensures Shifted(before, after, w, Shift(p, b, debit, w))
  {
    hide Sum, Reserved;
    assert Effect(p, b, debit, BalanceTotal(w)) == Shift(p, b, debit, w).Total;
    assert Effect(p, b, debit, BalanceOf(w, Paid)) == Shift(p, b, debit, w).paid;
    assert Effect(p, b, debit, BalanceOf(w, Bonus)) == Shift(p, b, debit, w).bonus;
    assert Effect(p, b, debit, BalanceOf(w, AdminComp)) == Shift(p, b, debit, w).comp;
  }

  lemma {:induction false} AuditShiftsNothing(before: seq<Row>, after: seq<Row>, r: Row, w: nat)
    requires WrittenRow(before, after, r) && !AffectsBalance(r.kind)
    ensures Shifted(before, after, w, ByOrigin(0, 0, 0))
  {
    hide Sum, Reserved;
    assert !Selects(BalanceTotal(w), r);
    assert !Selects(BalanceOf(w, Paid), r) && !Selects(BalanceOf(w, Bonus), r) && !Selects(BalanceOf(w, AdminComp), r);
  }

  lemma {:induction false} SolventAfter(l: Ledger, l': Ledger, w: nat, d: ByOrigin, dr: int)
    requires SolventAt(l, w) && Shifted(l.rows, l'.rows, w, d)
    requires Reserved(l'.holds, w) == Reserved(l.holds, w) + dr
    requires d.paid + Balance(l, w).paid >= 0 && d.bonus + Balance(l, w).bonus >= 0 && d.comp + Balance(l, w).comp >= 0
    requires dr - d.Total <= Available(l, w)
    ensures SolventAt(l', w)
  {
    hide Sum, Reserved;
  }

  lemma {:induction false} AuditKeepsSolvency(l: Ledger, l': Ledger, r: Row, w: nat, dr: int)
    requires SolventAt(l, w) && WrittenRow(l.rows, l'.rows, r) && !AffectsBalance(r.kind)
    requires Reserved(l'.holds, w) == Reserved(l.holds, w) + dr && dr <= Available(l, w)
    ensures SolventAt(l', w)
  {
    hide Sum, Reserved;
    AuditShiftsNothing(l.rows, l'.rows, r, w);
    SolventAfter(l, l', w, ByOrigin(0, 0, 0), dr);
  }

  lemma {:induction false} MoveKeepsSolvency(l: Ledger, l': Ledger, p: Purpose, b: ByOrigin, debit: bool)
    requires Solvent(l) && AffectsBalance(p.kind) && NonNeg(b) && (debit ==> Affordable(l, p, b))
    requires Written(l.rows, l'.rows, p, b, debit) && l'.holds == l.holds
    ensures Solvent(l')
  {
    hide Sum, Reserved;
    forall w: nat ensures SolventAt(l', w) {
      assert SolventAt(l, w);
      WrittenShifts(l.rows, l'.rows, p, b, debit, w);
      SolventAfter(l, l', w, Shift(p, b, debit, w), 0);
    }
  }

  lemma {:induction false} MoveKeepsHolds(l: Ledger, l': Ledger, p: Purpose, b: ByOrigin, debit: bool)
    requires HoldsOk(l) && p.hold == None
    requires Written(l.rows, l'.rows, p, b, debit) && l'.holds == l.holds
    ensures HoldsOk(l')
  {
    hide Sum, Reserved;
    forall i: nat | i < |l'.holds| ensures HoldOkAt(l', i) { assert HoldOkAt(l, i); }
  }

  lemma {:induction false} RowOfShape(p: Purpose, b: ByOrigin, debit: bool, r: Row)
    requires r in RowsOf(p, b, debit)
    ensures r.kind == p.kind && r.origin.Some? && r.hold == p.hold && (debit ==> r.amount < 0)
  {
    var x, y, z := OptionalRow(p, Bonus, b.bonus, debit), OptionalRow(p, Paid, b.paid, debit),
      OptionalRow(p, AdminComp, b.comp, debit);
    assert r in x || r in y || r in z;
  }

  lemma {:induction false} RowsKeepRowsOk(l: Ledger, p: Purpose, b: ByOrigin, debit: bool)
    requires RowsOk(l)
    requires p.hold.Some? ==> p.hold.value < |l.holds|
    requires p.kind.DebitBooking? || p.kind.DebitNextoreAccount? ==> debit
    ensures RowsOk(AddRows(l, RowsOf(p, b, debit)))
  {
    hide RowsOf;
    forall r | r in l.rows + RowsOf(p, b, debit) ensures RowOk(r, |l.holds|) {
      if r !in l.rows { RowOfShape(p, b, debit, r); }
    }
  }

  predicate IsDebit(k: Kind) { k.DebitBooking? || k.DebitNextoreAccount? || k.Adjustment? }

  predicate IsCredit(k: Kind) { k.CreditPackPurchase? || k.CreditPackBonus? || k.CreditAdmin? }

  /** Debits only enlarge what was debited, plain credits touch neither side. */
  lemma {:induction false} MoveKeepsRefunds(l: Ledger, l': Ledger, p: Purpose, b: ByOrigin, debit: bool)
    requires RefundsOk(l) && NonNeg(b)
    requires if debit then IsDebit(p.kind) else IsCredit(p.kind)
    requires Written(l.rows, l'.rows, p, b, debit)
    ensures RefundsOk(l')
  {
    hide Sum, Reserved;
    forall n: nat, o ensures DebitSigns(l', n, o) { assert DebitSigns(l, n, o); }
    forall n: nat ensures RefundsOkFor(l', n) {
      assert RefundsOkFor(l, n);
      assert DebitSigns(l, n, Paid) && DebitSigns(l, n, Bonus) && DebitSigns(l, n, AdminComp);
    }
    forall n: nat ensures AccountOk(l', n) {
      assert AccountOk(l, n);
      assert DebitSigns(l, n, Paid) && DebitSigns(l, n, Bonus) && DebitSigns(l, n, AdminComp);
    }
  }

  lemma {:induction false} MoveKeepsInv(l: Ledger, p: Purpose, b: ByOrigin, debit: bool)
    requires WalletInv(l) && NonNeg(b) && p.hold == None
    requires if debit then IsDebit(p.kind) && Affordable(l, p, b) else IsCredit(p.kind)
    ensures WalletInv(AddRows(l, RowsOf(p, b, debit)))
  {
    hide Sum, Reserved, RowsOf;
    var l' := AddRows(l, RowsOf(p, b, debit));
    RowsAreWritten(l.rows, p, b, debit);
    RowsKeepRowsOk(l, p, b, debit);
    MoveKeepsSolvency(l, l', p, b, debit);
    MoveKeepsHolds(l, l', p, b, debit);
    MoveKeepsRefunds(l, l', p, b, debit);
  }

  lemma {:induction false} DebitKeepsInv(l: Ledger, p: Purpose, amount: int)
    requires WalletInv(l) && amount >= 0 && p.hold == None && IsDebit(p.kind)
    ensures WalletInv(Debit(l, p, amount).0)
    ensures Debit(l, p, amount).1
            == if amount <= Available(l, p.wallet) then Done else InsufficientBalance(Available(l, p.wallet), amount)
  {
    hide Sum, Reserved, Greedy;
    assert SolventAt(l, p.wallet);
    if amount <= Available(l, p.wallet) {
      HoldAmountsNonNegative(l);
      ReservedNonNegative(l.holds, p.wallet);
      GreedyIsExact(amount, Balance(l, p.wallet));
      MoveKeepsInv(l, p, Greedy(amount, Balance(l, p.wallet)), true);
    }
  }

  lemma {:induction false} HoldAmountsNonNegative(l: Ledger)
    requires HoldsOk(l)
    ensures forall h :: h in l.holds ==> h.amount >= 0
  {
    hide Sum;
    forall h | h in l.holds ensures h.amount >= 0 {
      var i :| 0 <= i < |l.holds| && l.holds[i] == h;
      assert HoldOkAt(l, i);
    }
  }

  lemma {:induction false} RefundKeepsRefunds(l: Ledger, l': Ledger, p: Purpose, b: ByOrigin)
    requires RefundsOk(l) && NonNeg(b) && Written(l.rows, l'.rows, p, b, false)
    requires p.kind.RefundBooking? && p.booking.Some? ==>
             b.Within(Minus(BookingDebits(l, p.booking.value), BookingRefunds(l, p.booking.value)))
    requires p.kind.RefundNextoreAccount? && p.account.Some? ==>
             b.Within(Minus(AccountDebits(l, p.account.value), AccountRefunds(l, p.account.value)))
    requires p.kind.RefundBooking? || p.kind.RefundNextoreAccount?
    ensures RefundsOk(l')
  {
    hide Sum, Reserved;
    forall n: nat, o ensures DebitSigns(l', n, o) { assert DebitSigns(l, n, o); }
    forall n: nat ensures RefundsOkFor(l', n) { assert RefundsOkFor(l, n); }
    forall n: nat ensures AccountOk(l', n) { assert AccountOk(l, n); }
  }

  lemma {:induction false} RefundKeepsInv(l: Ledger, p: Purpose, amount: int, refundable: ByOrigin)
    requires WalletInv(l) && amount >= 0 && p.hold == None && NonNeg(refundable)
    requires p.kind.RefundBooking? || p.kind.RefundNextoreAccount?
    requires p.kind.RefundBooking? && p.booking.Some? ==>
             refundable == Minus(BookingDebits(l, p.booking.value), BookingRefunds(l, p.booking.value))
    requires p.kind.RefundNextoreAccount? && p.account.Some? ==>
             refundable == Minus(AccountDebits(l, p.account.value), AccountRefunds(l, p.account.value))
    ensures WalletInv(Refund(l, p, amount, refundable).0)
  {
    hide Sum, Reserved, Proportional;
    if amount <= refundable.Total {
      ProportionalIsFair(amount, refundable, Paid);
      var b := Proportional(amount, refundable);
      var l' := AddRows(l, RowsOf(p, b, false));
      RowsAreWritten(l.rows, p, b, false);
      RowsKeepRowsOk(l, p, b, false);
      MoveKeepsSolvency(l, l', p, b, false);
      MoveKeepsHolds(l, l', p, b, false);
      RefundKeepsRefunds(l, l', p, b);
    }
  }

  /** No row mentions a hold that does not exist yet. */
  lemma {:induction false} NoRowsForNewHold(rows: seq<Row>, n: nat, kind: Kind)
    requires forall r :: r in rows ==> RowOk(r, n)
    ensures Sum(rows, HoldRows(kind, n)) == 0
  {
    if rows != [] {
      NoRowsForNewHold(rows[..|rows| - 1], n, kind);
      assert rows[|rows| - 1] in rows;
    }
  }

  ghost predicate WrittenRow(before: seq<Row>, after: seq<Row>, r: Row) {
    forall q :: Sum(after, q) == Sum(before, q) + (if Selects(q, r) then r.amount else 0)
  }

  lemma {:induction false} RowIsWritten(rows: seq<Row>, r: Row)
    ensures WrittenRow(rows, rows + [r], r)
  {
    forall q ensures Sum(rows + [r], q) == Sum(rows, q) + (if Selects(q, r) then r.amount else 0) {
      SumAppend(rows, [r], q);
      SumSingle(r, q);
    }
  }

  lemma {:induction false} AuditKeepsRefunds(l: Ledger, l': Ledger, r: Row)
    requires RefundsOk(l) && !AffectsBalance(r.kind) && WrittenRow(l.rows, l'.rows, r)
    ensures RefundsOk(l')
  {
    hide Sum, Reserved;
    forall n: nat, o ensures DebitSigns(l', n, o) { assert DebitSigns(l, n, o); }
    forall n: nat ensures RefundsOkFor(l', n) { assert RefundsOkFor(l, n); }
    forall n: nat ensures AccountOk(l', n) { assert AccountOk(l, n); }
  }

  lemma {:induction false} RowKeepsRowsOk(l: Ledger, r: Row, holds: seq<Hold>)
    requires RowsOk(l) && RowOk(r, |holds|) && |l.holds| <= |holds|
    ensures RowsOk(Ledger(l.rows + [r], holds))
  {
    hide Sum;
    forall x | x in l.rows + [r] ensures RowOk(x, |holds|) {
      if x != r { assert x in l.rows; }
    }
  }

  /** Opening a hold reserves only what is available. */
  lemma {:induction false} OpenKeepsInv(l: Ledger, w: nat, b: nat, amount: int)
    requires WalletInv(l) && 0 <= amount <= Available(l, w)
    ensures WalletInv(OpenHold(l, w, b, amount))
  {
    hide Sum, Reserved;
    var n := |l.holds|;
    var h := Hold(w, b, amount, Active);
    var r := AuditRow(h, n, HoldCreated, amount);
    var l' := OpenHold(l, w, b, amount);
    RowIsWritten(l.rows, r);
    RowKeepsRowsOk(l, r, l'.holds);
    AuditKeepsRefunds(l, l', r);
    OpenKeepsSolvency(l, l', h, r);
    NoRowsForNewHold(l.rows, n, HoldCreated);
    NoRowsForNewHold(l.rows, n, HoldReleased);
    NoRowsForNewHold(l.rows, n, HoldCaptured);
    NoRowsForNewHold(l.rows, n, DebitBooking);
    OpenKeepsHolds(l, l', h, r);
  }

  lemma {:induction false} OpenKeepsSolvency(l: Ledger, l': Ledger, h: Hold, r: Row)
    requires Solvent(l) && WrittenRow(l.rows, l'.rows, r) && !AffectsBalance(r.kind)
    requires l'.holds == l.holds + [h] && h.status.Active? && h.amount <= Available(l, h.wallet)
    ensures Solvent(l')
  {
    hide Sum, Reserved;
    forall w: nat ensures SolventAt(l', w) {
      assert SolventAt(l, w);
      ReservedAppend(l.holds, h, w);
      AuditKeepsSolvency(l, l', r, w, if h.wallet == w then h.amount else 0);
    }
  }

  lemma {:induction false} OpenKeepsHolds(l: Ledger, l': Ledger, h: Hold, r: Row)
    requires HoldsOk(l) && WrittenRow(l.rows, l'.rows, r)
    requires r.kind.HoldCreated? && r.hold == Some(|l.holds|) && r.amount == h.amount >= 0
    requires l'.holds == l.holds + [h] && h.status.Active?
    requires Sum(l.rows, HoldRows(HoldCreated, |l.holds|)) == 0 && Sum(l.rows, HoldRows(HoldReleased, |l.holds|)) == 0
    requires Sum(l.rows, HoldRows(HoldCaptured, |l.holds|)) == 0 && Sum(l.rows, HoldRows(DebitBooking, |l.holds|)) == 0
    ensures HoldsOk(l')
  {
    hide Sum, Reserved;
    forall k: nat | k < |l'.holds| ensures HoldOkAt(l', k) {
      if k < |l.holds| { assert HoldOkAt(l, k); }
    }
  }

  /** Shrinking an active hold, to nothing or not, with the row that says by how much. */
  lemma {:induction false} ShrinkKeepsInv(l: Ledger, i: nat, h: Hold, r: Row)
    requires WalletInv(l) && i < |l.holds| && l.holds[i].status.Active?
    requires r.hold == Some(i) && r.kind.HoldReleased? && r.amount == l.holds[i].amount - ActiveAmount(h)
    requires 0 <= h.amount && ActiveAmount(h) <= l.holds[i].amount && h.wallet == l.holds[i].wallet
             && !h.status.Captured?
    ensures WalletInv(Ledger(l.rows + [r], l.holds[i := h]))
  {
    hide Sum, Reserved;
    var l' := Ledger(l.rows + [r], l.holds[i := h]);
    RowIsWritten(l.rows, r);
    RowKeepsRowsOk(l, r, l'.holds);
    AuditKeepsRefunds(l, l', r);
    ShrinkKeepsSolvency(l, l', i, h, r);
    ShrinkKeepsHolds(l, l', i, h, r);
  }

  lemma {:induction false} ShrinkKeepsSolvency(l: Ledger, l': Ledger, i: nat, h: Hold, r: Row)
    requires Solvent(l) && WrittenRow(l.rows, l'.rows, r) && !AffectsBalance(r.kind)
    requires i < |l.holds| && l'.holds == l.holds[i := h] && l.holds[i].status.Active?
    requires h.wallet == l.holds[i].wallet && ActiveAmount(h) <= l.holds[i].amount
    ensures Solvent(l')
  {
    hide Sum, Reserved;
    forall w: nat ensures SolventAt(l', w) {
      assert SolventAt(l, w);
      ReservedUpdate(l.holds, i, h, w);
      AuditKeepsSolvency(l, l', r, w, if h.wallet == w then ActiveAmount(h) - l.holds[i].amount else 0);
    }
  }

  lemma {:induction false} ShrinkKeepsHolds(l: Ledger, l': Ledger, i: nat, h: Hold, r: Row)
    requires HoldsOk(l) && WrittenRow(l.rows, l'.rows, r)
    requires i < |l.holds| && l'.holds == l.holds[i := h] && l.holds[i].status.Active? && !h.status.Captured?
             && h.amount >= 0
    requires r.hold == Some(i) && r.kind.HoldReleased? && r.amount == l.holds[i].amount - ActiveAmount(h)
    ensures HoldsOk(l')
  {
    hide Sum, Reserved;
    forall k: nat | k < |l'.holds| ensures HoldOkAt(l', k) { assert HoldOkAt(l, k); }
  }

  lemma {:induction false} ReleaseKeepsInv(l: Ledger, i: nat)
    requires WalletInv(l) && i < |l.holds|
    ensures WalletInv(ReleaseCas(l, i, l.holds[i].amount))
  {
    hide Sum, Reserved;
    assert HoldOkAt(l, i);
    var h := l.holds[i];
    if h.status.Active? {
      ShrinkKeepsInv(l, i, h.(status := Released), AuditRow(h, i, HoldReleased, h.amount));
    }
  }

  lemma {:induction false} ReduceKeepsInv(l: Ledger, i: nat, amount: int)
    requires WalletInv(l) && i < |l.holds| && amount >= 0
    ensures WalletInv(ReduceCas(l, i, amount))
  {
    hide Sum, Reserved;
    assert HoldOkAt(l, i);
    var h := l.holds[i];
    if h.status.Active? && amount <= h.amount {
      ShrinkKeepsInv(l, i, h.(amount := h.amount - amount), AuditRow(h, i, HoldReleased, amount));
    }
  }

  /** An active hold can always be captured: `captureHold` never reaches the inconsistency throw. */
  lemma {:induction false} CaptureIsTotal(l: Ledger, i: nat)
    requires WalletInv(l) && i < |l.holds|
    ensures Capture(l, i).1 == Done
    ensures l.holds[i].status.Active? ==>
              var g := Greedy(l.holds[i].amount, Balance(l, l.holds[i].wallet));
              && g.Total == l.holds[i].amount && g.Within(Balance(l, l.holds[i].wallet))
              && Balance(l.(holds := l.holds[i := l.holds[i].(status := Captured)]), l.holds[i].wallet) ==
                Balance(l, l.holds[i].wallet)
  {
    hide Sum, Reserved, Greedy;
    var h := l.holds[i];
    if h.status.Active? {
      assert SolventAt(l, h.wallet) && HoldOkAt(l, i);
      HoldAmountsNonNegative(l);
      ReservedCovers(l.holds, i);
      GreedyIsExact(h.amount, Balance(l, h.wallet));
    }
  }

  /** The rows of a capture, as every sum sees them: the debit and the audit entry. */
  lemma {:induction false} CaptureWrites(l: Ledger, i: nat, g: ByOrigin)
    requires i < |l.holds| && NonNeg(g)
    ensures var p := Purpose(l.holds[i].wallet, DebitBooking, Some(l.holds[i].booking), None, Some(i));
            var r := AuditRow(l.holds[i], i, HoldCaptured, l.holds[i].amount);
            var mid := l.rows + RowsOf(p, g, true);
            && Written(l.rows, mid, p, g, true) && WrittenRow(mid, mid + [r], r)
            && l.rows + (RowsOf(p, g, true) + [r]) == mid + [r]
  {
    hide Sum, RowsOf;
    var p := Purpose(l.holds[i].wallet, DebitBooking, Some(l.holds[i].booking), None, Some(i));
    RowsAreWritten(l.rows, p, g, true);
    RowIsWritten(l.rows + RowsOf(p, g, true), AuditRow(l.holds[i], i, HoldCaptured, l.holds[i].amount));
  }

  /** The debit comes out of the balance the hold was reserving. */
  lemma {:induction false} CaptureKeepsSolvency(l: Ledger, mid: Ledger, l': Ledger, i: nat, p: Purpose, g: ByOrigin,
      r: Row)
    requires Solvent(l) && i < |l.holds| && l.holds[i].status.Active? && NonNeg(g)
    requires p.wallet == l.holds[i].wallet && p.kind.DebitBooking? && !AffectsBalance(r.kind)
    requires Written(l.rows, mid.rows, p, g, true) && WrittenRow(mid.rows, l'.rows, r)
    requires l'.holds == mid.holds == l.holds[i := l.holds[i].(status := Captured)]
    requires g.Within(Balance(l, p.wallet)) && g.Total == l.holds[i].amount
    ensures Solvent(l')
  {
    hide Sum, Reserved;
    forall w: nat ensures SolventAt(l', w) {
      CaptureDebitsReserved(l, mid, i, p, g, w);
      AuditKeepsSolvency(mid, l', r, w, 0);
    }
  }

  lemma {:induction false} CaptureDebitsReserved(l: Ledger, mid: Ledger, i: nat, p: Purpose, g: ByOrigin, w: nat)
    requires SolventAt(l, w) && i < |l.holds| && l.holds[i].status.Active? && NonNeg(g)
    requires p.wallet == l.holds[i].wallet && p.kind.DebitBooking?
    requires Written(l.rows, mid.rows, p, g, true)
    requires mid.holds == l.holds[i := l.holds[i].(status := Captured)]
    requires g.Within(Balance(l, p.wallet)) && g.Total == l.holds[i].amount
    ensures SolventAt(mid, w) && 0 <= Available(mid, w)
  {
    hide Sum, Reserved;
    ReservedUpdate(l.holds, i, l.holds[i].(status := Captured), w);
    WrittenShifts(l.rows, mid.rows, p, g, true, w);
    SolventAfter(l, mid, w, Shift(p, g, true, w), if p.wallet == w then -l.holds[i].amount else 0);
  }

  lemma {:induction false} CaptureKeepsHolds(l: Ledger, mid: seq<Row>, l': Ledger, i: nat, p: Purpose, g: ByOrigin,
      r: Row)
    requires HoldsOk(l) && i < |l.holds| && l.holds[i].status.Active?
    requires p.hold == Some(i) && p.kind.DebitBooking? && r.kind.HoldCaptured? && r.hold == Some(i)
    requires r.amount == g.Total == l.holds[i].amount
    requires Written(l.rows, mid, p, g, true) && WrittenRow(mid, l'.rows, r)
    requires l'.holds == l.holds[i := l.holds[i].(status := Captured)]
    ensures HoldsOk(l')
  {
    hide Sum, Reserved;
    forall k: nat | k < |l'.holds| ensures HoldOkAt(l', k) { assert HoldOkAt(l, k); }
  }

  lemma {:induction false} CaptureKeepsInv(l: Ledger, i: nat)
    requires WalletInv(l) && i < |l.holds|
    ensures WalletInv(Capture(l, i).0)
  {
    hide Sum, Reserved, Greedy, RowsOf;
    CaptureIsTotal(l, i);
    var h := l.holds[i];
    if h.status.Active? {
      var g := Greedy(h.amount, Balance(l, h.wallet));
      var p := Purpose(h.wallet, DebitBooking, Some(h.booking), None, Some(i));
      var r := AuditRow(h, i, HoldCaptured, h.amount);
      var mid := l.rows + RowsOf(p, g, true);
      var l' := Capture(l, i).0;
      CaptureWrites(l, i, g);
      RowsKeepRowsOk(l, p, g, true);
      RowKeepsRowsOk(Ledger(mid, l.holds), r, l'.holds);
      MoveKeepsRefunds(l, Ledger(mid, l.holds), p, g, true);
      AuditKeepsRefunds(Ledger(mid, l.holds), l', r);
      CaptureKeepsSolvency(l, Ledger(mid, l'.holds), l', i, p, g, r);
      CaptureKeepsHolds(l, mid, l', i, p, g, r);
    }
  }

  lemma {:induction false} PackKeepsInv(l: Ledger, w: nat, paidCents: int, bonusCents: int)
    requires WalletInv(l) && paidCents >= 0 && bonusCents >= 0
    ensures WalletInv(AddRows(l, PackRows(w, paidCents, bonusCents)))
  {
    hide Sum, Reserved, RowsOf;
    var p := Purpose(w, CreditPackPurchase, None, None, None);
    var q := Purpose(w, CreditPackBonus, None, None, None);
    var x, y := RowsOf(p, ByOrigin(paidCents, 0, 0), false), RowsOf(q, ByOrigin(0, bonusCents, 0), false);
    MoveKeepsInv(l, p, ByOrigin(paidCents, 0, 0), false);
    MoveKeepsInv(AddRows(l, x), q, ByOrigin(0, bonusCents, 0), false);
    assert (l.rows + x) + y == l.rows + (x + y);
  }

  /** One operation with a non-negative amount keeps every clause of the invariant and never fails internally. */
  lemma {:induction false} ApplyKeepsInv(l: Ledger, op: Op)
    requires WalletInv(l) && NonNegative(op)
    ensures WalletInv(Apply(l, op).0)
    ensures Apply(l, op).1 != InternalInconsistency
  {
    hide Sum, Reserved, Greedy, Proportional, RowsOf;
    match op
    case CreditFromPackPurchase(w, p, b) => PackKeepsInv(l, w, p, b);
    case CreditAdminOp(w, a) => MoveKeepsInv(l, Purpose(w, CreditAdmin, None, None, None), ByOrigin(0, 0, a), false);
    case DebitAdmin(w, a) => DebitKeepsInv(l, Purpose(w, Adjustment, None, None, None), a);
    case DebitForBooking(w, b, a) => DebitKeepsInv(l, Purpose(w, DebitBooking, Some(b), None, None), a);
    case RefundForBooking(w, b, a) =>
      assert RefundsOkFor(l, b);
      RefundKeepsInv(l, Purpose(w, RefundBooking, Some(b), None, None), a,
        Minus(BookingDebits(l, b), BookingRefunds(l, b)));
    case DebitForAccount(w, n, a) => DebitKeepsInv(l, Purpose(w, DebitNextoreAccount, None, Some(n), None), a);
    case RefundForAccount(w, n, a) =>
      assert AccountOk(l, n);
      RefundKeepsInv(l, Purpose(w, RefundNextoreAccount, None, Some(n), None), a,
        Minus(AccountDebits(l, n), AccountRefunds(l, n)));
    case CreateHold(w, b, a) =>
      if a <= Available(l, w) { OpenKeepsInv(l, w, b, a); }
    case ReleaseHold(h) => if h < |l.holds| { ReleaseKeepsInv(l, h); }
    case ReleaseHoldPartially(h, a) => if h < |l.holds| { ReleaseKeepsInv(l, h); ReduceKeepsInv(l, h, a); }
    case CaptureHold(h) => if h < |l.holds| { CaptureIsTotal(l, h); CaptureKeepsInv(l, h); }
  }

  /** Over every run: solvent per origin, reservations covered, holds conserved, refunds within debits. */
  lemma {:induction false} RunKeepsInv(ops: seq<Op>)
    requires forall op :: op in ops ==> NonNegative(op)
    ensures WalletInv(Run(ops))
  {
    if ops == [] {
      EmptyInv();
    } else {
      RunKeepsInv(ops[..|ops| - 1]);
      assert ops[|ops| - 1] in ops;
      ApplyKeepsInv(Run(ops[..|ops| - 1]), ops[|ops| - 1]);
    }
  }

  /** The inconsistency throw is unreachable after any run, whatever is asked next. */
  lemma {:induction false} InconsistencyIsUnreachable(ops: seq<Op>, next: Op)
    requires forall op :: op in ops ==> NonNegative(op)
    requires NonNegative(next)
    ensures Apply(Run(ops), next).1 != InternalInconsistency
  {
    RunKeepsInv(ops);
    ApplyKeepsInv(Run(ops), next);
  }

  /** The rows only grow, and none of the new ones is about hold `h`. */
  predicate NoMoreRows(l: Ledger, l': Ledger, h: nat) {
    l.rows <= l'.rows && forall k :: |l.rows| <= k < |l'.rows| ==> l'.rows[k].hold != Some(h)
  }

  lemma {:induction false} RowsAreAbout(p: Purpose, b: ByOrigin, debit: bool)
    ensures forall r :: r in RowsOf(p, b, debit) ==> r.hold == p.hold && r.kind == p.kind && r.booking == p.booking
  {
  }

  lemma {:induction false} AddedRows(l: Ledger, rows: seq<Row>, h: nat)
    requires forall r :: r in rows ==> r.hold != Some(h)
    ensures NoMoreRows(l, AddRows(l, rows), h)
  {
    forall k | |l.rows| <= k < |l.rows + rows| ensures (l.rows + rows)[k].hold != Some(h) {
      assert (l.rows + rows)[k] == rows[k - |l.rows|];
    }
  }

  lemma {:induction false} DebitLeavesHold(l: Ledger, p: Purpose, amount: int, h: nat)
    requires p.hold == None
    ensures NoMoreRows(l, Debit(l, p, amount).0, h)
  {
    hide RowsOf, Greedy, Sum, Reserved;
    var b := Greedy(amount, Balance(l, p.wallet));
    RowsAreAbout(p, b, true);
    AddedRows(l, RowsOf(p, b, true), h);
  }

  lemma {:induction false} RefundLeavesHold(l: Ledger, p: Purpose, amount: int, refundable: ByOrigin, h: nat)
    requires p.hold == None
    ensures NoMoreRows(l, Refund(l, p, amount, refundable).0, h)
  {
    hide RowsOf, Proportional, Sum, Reserved;
    RowsAreAbout(p, Proportional(amount, refundable), false);
    AddedRows(l, RowsOf(p, Proportional(amount, refundable), false), h);
  }

  lemma {:induction false} PackLeavesHold(l: Ledger, w: nat, paidCents: int, bonusCents: int, h: nat)
    ensures NoMoreRows(l, AddRows(l, PackRows(w, paidCents, bonusCents)), h)
  {
    hide RowsOf;
    RowsAreAbout(Purpose(w, CreditPackPurchase, None, None, None), ByOrigin(paidCents, 0, 0), false);
    RowsAreAbout(Purpose(w, CreditPackBonus, None, None, None), ByOrigin(0, bonusCents, 0), false);
    AddedRows(l, PackRows(w, paidCents, bonusCents), h);
  }

  lemma {:induction false} CaptureLeavesHold(l: Ledger, id: nat, h: nat)
    requires id < |l.holds| && id != h
    ensures NoMoreRows(l, Capture(l, id).0, h)
  {
    hide RowsOf, Greedy, Sum, Reserved;
    var x := l.holds[id];
    var p := Purpose(x.wallet, DebitBooking, Some(x.booking), None, Some(id));
    var rows := RowsOf(p, Greedy(x.amount, Balance(l, x.wallet)), true);
    RowsAreAbout(p, Greedy(x.amount, Balance(l, x.wallet)), true);
    AddedRows(l, rows + [AuditRow(x, id, HoldCaptured, x.amount)], h);
  }

  /** No operation writes another row about a finished hold. */
  lemma {:induction false} StepLeavesFinished(l: Ledger, op: Op, h: nat)
    requires h < |l.holds| && !l.holds[h].status.Active?
    ensures NoMoreRows(l, Apply(l, op).0, h)
  {
    hide RowsOf, Greedy, Proportional, Sum, Reserved, Debit, Refund, Capture, PackRows, Available;
    match op
    case CreditFromPackPurchase(w, p, b) => PackLeavesHold(l, w, p, b, h);
    case CreditAdminOp(w, a) =>
      RowsAreAbout(Purpose(w, CreditAdmin, None, None, None), ByOrigin(0, 0, a), false);
      AddedRows(l, RowsOf(Purpose(w, CreditAdmin, None, None, None), ByOrigin(0, 0, a), false), h);
    case DebitAdmin(w, a) => DebitLeavesHold(l, Purpose(w, Adjustment, None, None, None), a, h);
    case DebitForBooking(w, b, a) => DebitLeavesHold(l, Purpose(w, DebitBooking, Some(b), None, None), a, h);
    case RefundForBooking(w, b, a) =>
      RefundLeavesHold(l, Purpose(w, RefundBooking, Some(b), None, None), a,
                       Minus(BookingDebits(l, b), BookingRefunds(l, b)), h);
    case DebitForAccount(w, n, a) => DebitLeavesHold(l, Purpose(w, DebitNextoreAccount, None, Some(n), None), a, h);
    case RefundForAccount(w, n, a) =>
      RefundLeavesHold(l, Purpose(w, RefundNextoreAccount, None, Some(n), None), a,
                       Minus(AccountDebits(l, n), AccountRefunds(l, n)), h);
    case CreateHold(_, _, _) =>
    case ReleaseHold(_) =>
    case ReleaseHoldPartially(_, _) =>
    case CaptureHold(id) =>
      if id < |l.holds| { if id == h { CapturedOnce(l, h); } else { CaptureLeavesHold(l, id, h); } }
  }

  lemma {:induction false} CapturedOnce(l: Ledger, h: nat)
    requires h < |l.holds| && !l.holds[h].status.Active?
    ensures Capture(l, h) == (l, Done)
  {
  }

  lemma {:induction false} StepKeepsFinished(l: Ledger, op: Op, h: nat)
    requires h < |l.holds| && !l.holds[h].status.Active?
    ensures h < |Apply(l, op).0.holds| && Apply(l, op).0.holds[h] == l.holds[h]
  {
    hide Sum, Reserved, Greedy, Proportional, RowsOf;
  }

  lemma {:induction false} RunKeepsFinished(ops: seq<Op>, later: seq<Op>, h: nat)
    requires h < |Run(ops).holds| && !Run(ops).holds[h].status.Active?
    ensures h < |Run(ops + later).holds| && Run(ops + later).holds[h] == Run(ops).holds[h]
    ensures NoMoreRows(Run(ops), Run(ops + later), h)
  {
    hide Apply;
    if later == [] {
      assert ops + later == ops;
    } else {
      var n := |later| - 1;
      RunKeepsFinished(ops, later[..n], h);
      assert (ops + later)[..|ops + later| - 1] == ops + later[..n];
      StepKeepsFinished(Run(ops + later[..n]), later[n], h);
      StepLeavesFinished(Run(ops + later[..n]), later[n], h);
    }
  }

  /**
   A hold that is finished at some point of a run stays exactly as it is, whatever follows: no later row is about it,
   and what has been debited for it is its amount if it was captured and nothing if it was released.
   */
  lemma {:induction false} FinishedHoldIsFinal(ops: seq<Op>, later: seq<Op>, h: nat)
    requires forall op :: op in ops + later ==> NonNegative(op)
    requires h < |Run(ops).holds| && !Run(ops).holds[h].status.Active?
    ensures var l, hold := Run(ops + later), Run(ops).holds[h];
            && h < |l.holds| && l.holds[h] == hold && NoMoreRows(Run(ops), l, h)
            && Sum(l.rows, HoldRows(DebitBooking, h)) == if hold.status.Captured? then -hold.amount else 0
  {
    hide Run, Sum;
    RunKeepsFinished(ops, later, h);
    RunKeepsInv(ops + later);
    assert HoldOkAt(Run(ops + later), h);
  }
}
