/**
 The wallet as an append-only ledger: a list of transaction rows and a list of holds.
 Nothing stores a balance; every balance below is a sum over the rows, as in
 wallet.repository.ts. Amounts are integer cents, ids are natural numbers, and the
 id of a hold is its position in `holds`.
 */
module WalletLedger {
  import opened Common

  datatype Origin = Paid | Bonus | AdminComp

  datatype Kind =
    | CreditPackPurchase | CreditPackBonus | CreditAdmin
    | DebitBooking | RefundBooking | Adjustment | BonusExpiry
    | DebitNextoreAccount | RefundNextoreAccount
    | HoldCreated | HoldReleased | HoldCaptured

  datatype Row = Row(wallet: nat, kind: Kind, amount: int, origin: Option<Origin>,
                     booking: Option<nat>, account: Option<nat>, hold: Option<nat>)

  datatype HoldStatus = Active | Released | Captured

  datatype Hold = Hold(wallet: nat, booking: nat, amount: int, status: HoldStatus)

  datatype Ledger = Ledger(rows: seq<Row>, holds: seq<Hold>)

  const EMPTY := Ledger([], [])

  /** Cents per credit origin. */
  datatype ByOrigin = ByOrigin(paid: int, bonus: int, comp: int) {
    function Of(o: Origin): int {
      match o case Paid => paid case Bonus => bonus case AdminComp => comp
    }

    const Total: int := paid + bonus + comp

    predicate Within(limit: ByOrigin) {
      0 <= paid <= limit.paid && 0 <= bonus <= limit.bonus && 0 <= comp <= limit.comp
    }
  }

  /** HOLD_* rows are audit entries: they never move a balance. */
  predicate AffectsBalance(k: Kind) {
    !(k.HoldCreated? || k.HoldReleased? || k.HoldCaptured?)
  }

  /** The sums the repository asks the database for. */
  datatype Query =
    | BalanceTotal(wallet: nat)
    | BalanceOf(wallet: nat, origin: Origin)
    | BookingRows(kind: Kind, booking: nat, origin: Origin)
    | AccountRows(kind: Kind, account: nat, origin: Origin)
    | HoldRows(kind: Kind, hold: nat)

  predicate Selects(q: Query, r: Row) {
    match q
    case BalanceTotal(w) => r.wallet == w && AffectsBalance(r.kind)
    case BalanceOf(w, o) => r.wallet == w && AffectsBalance(r.kind) && r.origin == Some(o)
    case BookingRows(k, b, o) => r.kind == k && r.booking == Some(b) && r.origin == Some(o)
    case AccountRows(k, a, o) => r.kind == k && r.account == Some(a) && r.origin == Some(o)
    case HoldRows(k, h) => r.kind == k && r.hold == Some(h)
  }

  function Sum(rows: seq<Row>, q: Query): int {
    if rows == [] then 0
    else Sum(rows[..|rows| - 1], q) + (var r := rows[|rows| - 1]; if Selects(q, r) then r.amount else 0)
  }

  /** Cents of `w` locked by holds that are still ACTIVE. */
  function Reserved(holds: seq<Hold>, w: nat): int {
    if holds == [] then 0
    else
      var h := holds[|holds| - 1];
      Reserved(holds[..|holds| - 1], w) + (if h.wallet == w && h.status.Active? then h.amount else 0)
  }

  function Total(l: Ledger, w: nat): int { Sum(l.rows, BalanceTotal(w)) }

  function Balance(l: Ledger, w: nat): ByOrigin {
    ByOrigin(Sum(l.rows, BalanceOf(w, Paid)), Sum(l.rows, BalanceOf(w, Bonus)), Sum(l.rows, BalanceOf(w, AdminComp)))
  }

  function Available(l: Ledger, w: nat): int { Total(l, w) - Reserved(l.holds, w) }

  function Abs(x: int): int { if x < 0 then -x else x }

  function BookingDebits(l: Ledger, b: nat): ByOrigin {
    ByOrigin(Abs(Sum(l.rows, BookingRows(DebitBooking, b, Paid))),
             Abs(Sum(l.rows, BookingRows(DebitBooking, b, Bonus))),
             Abs(Sum(l.rows, BookingRows(DebitBooking, b, AdminComp))))
  }

  function BookingRefunds(l: Ledger, b: nat): ByOrigin {
    ByOrigin(Sum(l.rows, BookingRows(RefundBooking, b, Paid)),
             Sum(l.rows, BookingRows(RefundBooking, b, Bonus)),
             Sum(l.rows, BookingRows(RefundBooking, b, AdminComp)))
  }

  function AccountDebits(l: Ledger, a: nat): ByOrigin {
    ByOrigin(Abs(Sum(l.rows, AccountRows(DebitNextoreAccount, a, Paid))),
             Abs(Sum(l.rows, AccountRows(DebitNextoreAccount, a, Bonus))),
             Abs(Sum(l.rows, AccountRows(DebitNextoreAccount, a, AdminComp))))
  }

  function AccountRefunds(l: Ledger, a: nat): ByOrigin {
    ByOrigin(Sum(l.rows, AccountRows(RefundNextoreAccount, a, Paid)),
             Sum(l.rows, AccountRows(RefundNextoreAccount, a, Bonus)),
             Sum(l.rows, AccountRows(RefundNextoreAccount, a, AdminComp)))
  }

  function Minus(a: ByOrigin, b: ByOrigin): ByOrigin {
    ByOrigin(a.paid - b.paid, a.bonus - b.bonus, a.comp - b.comp)
  }

  // ---------------------------------------------------------------------
  // The two allocators
  // ---------------------------------------------------------------------

  function Take(available: int, remaining: int): int {
    Max(0, Min(available, remaining))
  }

  /** Bonus first, then paid, then offered credits; each origin gives what it can. */
  function Greedy(amount: int, available: ByOrigin): ByOrigin {
    var bonus := Take(available.bonus, amount);
    var paid := Take(available.paid, amount - bonus);
    var comp := Take(available.comp, amount - bonus - paid);
    ByOrigin(paid, bonus, comp)
  }

  function Share(part: int, amount: int, total: int): int
    requires total != 0
  {
    if total > 0 then (part * amount) / total else (-(part * amount)) / -total
  }

  /** Floors of the exact pro-rata shares, then the leftover cents in the order bonus, paid, offered. */
  function Proportional(amount: int, refundable: ByOrigin): ByOrigin {
    var total := refundable.Total;
    if total == 0 then ByOrigin(0, 0, 0)
    else if amount == total then refundable
    else
      var b := Share(refundable.bonus, amount, total);
      var p := Share(refundable.paid, amount, total);
      var c := Share(refundable.comp, amount, total);
      var r0 := amount - (b + p + c);
      var addB := if r0 <= 0 then 0 else Min(refundable.bonus - b, r0);
      var r1 := r0 - addB;
      var addP := if r1 <= 0 then 0 else Min(refundable.paid - p, r1);
      var r2 := r1 - addP;
      var addC := if r2 <= 0 then 0 else Min(refundable.comp - c, r2);
      ByOrigin(p + addP, b + addB, c + addC)
  }

  // ---------------------------------------------------------------------
  // Operations
  // ---------------------------------------------------------------------

  datatype Result =
    | Done
    | InsufficientBalance(available: int, requested: int)
    | ValidationFailed
    | NotFound
    | InternalInconsistency

  datatype Op =
    | CreditFromPackPurchase(wallet: nat, paidCents: int, bonusCents: int)
    | CreditAdminOp(wallet: nat, amount: int)
    | DebitAdmin(wallet: nat, amount: int)
    | DebitForBooking(wallet: nat, booking: nat, amount: int)
    | RefundForBooking(wallet: nat, booking: nat, amount: int)
    | DebitForAccount(wallet: nat, account: nat, amount: int)
    | RefundForAccount(wallet: nat, account: nat, amount: int)
    | CreateHold(wallet: nat, booking: nat, amount: int)
    | ReleaseHold(hold: nat)
    | ReleaseHoldPartially(hold: nat, amount: int)
    | CaptureHold(hold: nat)

  /** What a row is for: the columns all rows of one write share. */
  datatype Purpose = Purpose(wallet: nat, kind: Kind, booking: Option<nat>, account: Option<nat>, hold: Option<nat>)

  function OriginRow(p: Purpose, o: Origin, amount: int): Row {
    Row(p.wallet, p.kind, amount, Some(o), p.booking, p.account, p.hold)
  }

  function Signed(debit: bool, amount: int): int { if debit then -amount else amount }

  function OptionalRow(p: Purpose, o: Origin, amount: int, debit: bool): seq<Row> {
    if amount > 0 then [OriginRow(p, o, Signed(debit, amount))] else []
  }

  /** One row per origin with a positive amount, in DEBIT_ORIGIN_ORDER; debits are written negative. */
  function RowsOf(p: Purpose, b: ByOrigin, debit: bool): seq<Row> {
    OptionalRow(p, Bonus, b.bonus, debit) + OptionalRow(p, Paid, b.paid, debit)
      + OptionalRow(p, AdminComp, b.comp, debit)
  }

  function AuditRow(h: Hold, id: nat, kind: Kind, amount: int): Row {
    Row(h.wallet, kind, amount, None, Some(h.booking), None, Some(id))
  }

  function AddRows(l: Ledger, rows: seq<Row>): Ledger { l.(rows := l.rows + rows) }

  /** A debit without a hold: all or nothing. */
  function Debit(l: Ledger, p: Purpose, amount: int): (Ledger, Result) {
    if Available(l, p.wallet) < amount then (l, InsufficientBalance(Available(l, p.wallet), amount))
    else
      var b := Greedy(amount, Balance(l, p.wallet));
      if b.Total < amount then (l, InternalInconsistency)
      else (AddRows(l, RowsOf(p, b, true)), Done)
  }

  function Refund(l: Ledger, p: Purpose, amount: int, refundable: ByOrigin): (Ledger, Result) {
    if amount > refundable.Total then (l, ValidationFailed)
    else (AddRows(l, RowsOf(p, Proportional(amount, refundable), false)), Done)
  }

  function PackRows(w: nat, paidCents: int, bonusCents: int): seq<Row> {
    RowsOf(Purpose(w, CreditPackPurchase, None, None, None), ByOrigin(paidCents, 0, 0), false) +
    RowsOf(Purpose(w, CreditPackBonus, None, None, None), ByOrigin(0, bonusCents, 0), false)
  }

  function OpenHold(l: Ledger, w: nat, b: nat, amount: int): Ledger {
    var h := Hold(w, b, amount, Active);
    Ledger(l.rows + [AuditRow(h, |l.holds|, HoldCreated, amount)], l.holds + [h])
  }

  /** `transitionHold(id, ACTIVE, RELEASED)` followed by its audit row; `rowAmount` is the amount read before. */
  function ReleaseCas(l: Ledger, id: nat, rowAmount: int): Ledger
    requires id < |l.holds|
  {
    var h := l.holds[id];
    if h.status != Active then l
    else Ledger(l.rows + [AuditRow(h, id, HoldReleased, rowAmount)], l.holds[id := h.(status := Released)])
  }

  /** `reduceHoldAmount`: conditional decrement, then its audit row. */
  function ReduceCas(l: Ledger, id: nat, amount: int): Ledger
    requires id < |l.holds|
  {
    var h := l.holds[id];
    if h.status != Active || h.amount < amount then l
    else Ledger(l.rows + [AuditRow(h, id, HoldReleased, amount)], l.holds[id := h.(amount := h.amount - amount)])
  }

  function Capture(l: Ledger, id: nat): (Ledger, Result)
    requires id < |l.holds|
  {
    var h := l.holds[id];
    if h.status != Active then (l, Done)
    else
      var marked := l.(holds := l.holds[id := h.(status := Captured)]);
      var b := Greedy(h.amount, Balance(l, h.wallet));
      if b.Total < h.amount then (marked, InternalInconsistency)
      else
        (AddRows(marked, RowsOf(Purpose(h.wallet, DebitBooking, Some(h.booking), None, Some(id)), b, true)
                         + [AuditRow(h, id, HoldCaptured, h.amount)]), Done)
  }

  function Apply(l: Ledger, op: Op): (Ledger, Result) {
    match op
    case CreditFromPackPurchase(w, p, b) => (AddRows(l, PackRows(w, p, b)), Done)
    case CreditAdminOp(w, a) =>
      if a <= 0 then (l, ValidationFailed)
      else (AddRows(l, RowsOf(Purpose(w, CreditAdmin, None, None, None), ByOrigin(0, 0, a), false)), Done)
    case DebitAdmin(w, a) =>
      if a <= 0 then (l, ValidationFailed)
      else Debit(l, Purpose(w, Adjustment, None, None, None), a)
    case DebitForBooking(w, b, a) => Debit(l, Purpose(w, DebitBooking, Some(b), None, None), a)
    case RefundForBooking(w, b, a) =>
      Refund(l, Purpose(w, RefundBooking, Some(b), None, None), a, Minus(BookingDebits(l, b), BookingRefunds(l, b)))
    case DebitForAccount(w, n, a) => Debit(l, Purpose(w, DebitNextoreAccount, None, Some(n), None), a)
    case RefundForAccount(w, n, a) =>
      Refund(l, Purpose(w, RefundNextoreAccount, None, Some(n), None), a,
        Minus(AccountDebits(l, n), AccountRefunds(l, n)))
    case CreateHold(w, b, a) =>
      if Available(l, w) < a then (l, InsufficientBalance(Available(l, w), a))
      else (OpenHold(l, w, b, a), Done)
    case ReleaseHold(h) =>
      if h >= |l.holds| then (l, NotFound)
      else (ReleaseCas(l, h, l.holds[h].amount), Done)
    case ReleaseHoldPartially(h, a) =>
      if h >= |l.holds| then (l, NotFound)
      else if l.holds[h].status != Active then (l, Done)
      else if a >= l.holds[h].amount then (ReleaseCas(l, h, l.holds[h].amount), Done)
      else (ReduceCas(l, h, a), Done)
    case CaptureHold(h) =>
      if h >= |l.holds| then (l, NotFound) else Capture(l, h)
  }

  /** Callers only ever pass non-negative amounts. */
  predicate NonNegative(op: Op) {
    match op
    case CreditFromPackPurchase(_, p, b) => p >= 0 && b >= 0
    case CreditAdminOp(_, a) => a >= 0
    case DebitAdmin(_, a) => a >= 0
    case DebitForBooking(_, _, a) => a >= 0
    case RefundForBooking(_, _, a) => a >= 0
    case DebitForAccount(_, _, a) => a >= 0
    case RefundForAccount(_, _, a) => a >= 0
    case CreateHold(_, _, a) => a >= 0
    case ReleaseHold(_) => true
    case ReleaseHoldPartially(_, a) => a >= 0
    case CaptureHold(_) => true
  }

  function Run(ops: seq<Op>): Ledger {
    if ops == [] then EMPTY else Apply(Run(ops[..|ops| - 1]), ops[|ops| - 1]).0
  }
}
