/**
 Payments on bar accounts: idempotent recording, wallet payments through the shared ledger,
 and reversals that give the credits back. Ids are positions in the lists; a customer's
 wallet has the customer's number.
 */
module BarPayments {
  import opened Common
  import opened WalletLedger
  import opened WalletEffects
  import opened WalletProofs
  import opened WalletServices

  datatype Means = Cash | Card | WalletCredit
  datatype PaymentStatus = Pending | Recorded | Failed | Reversed
  datatype AccountStatus = Open | PartiallyPaid | Closed

  datatype Payment = Payment(account: nat, participant: Option<nat>, amount: int, means: Means, status: PaymentStatus,
      key: nat)
  datatype Account = Account(status: AccountStatus, customer: Option<nat>)
  datatype SaleLine = SaleLine(account: nat, quantity: real, unitPrice: int, voided: bool)

  datatype Bar = Bar(ledger: Ledger, payments: seq<Payment>, accounts: seq<Account>,
                     participants: seq<Option<nat>>, lines: seq<SaleLine>)

  datatype Outcome =
    | Ok(payment: nat, change: int)
    | Replayed(payment: nat)
    | Invalid
    | Missing
    | WalletRefused(reason: Result)

  /** Quantities may be fractional; halves round up. */
  function LineTotal(x: SaleLine): int {
    (x.quantity * x.unitPrice as real + 0.5).Floor
  }

  function SalesTotal(lines: seq<SaleLine>, account: nat): int {
    if lines == [] then 0
    else
      var x := lines[|lines| - 1];
      SalesTotal(lines[..|lines| - 1], account) + (if x.account == account && !x.voided then LineTotal(x) else 0)
  }

  /** What the payments of one account add up to, over a choice of methods. */
  function RecordedTotal(payments: seq<Payment>, account: nat, walletOnly: bool): int {
    if payments == [] then 0
    else
      var p := payments[|payments| - 1];
      RecordedTotal(payments[..|payments| - 1], account, walletOnly) + Counted(p, account, walletOnly)
  }

  function Counted(p: Payment, account: nat, walletOnly: bool): int {
    if p.account == account && p.status.Recorded? && (walletOnly ==> p.means.WalletCredit?) then p.amount else 0
  }

  function DueTotal(s: Bar, account: nat): int {
    SalesTotal(s.lines, account) - RecordedTotal(s.payments, account, false)
  }

  function FindKey(payments: seq<Payment>, key: nat): (r: Option<nat>)
    ensures r.Some? ==> r.value < |payments| && payments[r.value].key == key
    ensures r.None? ==> forall p :: p in payments ==> p.key != key
  {
    if payments == [] then None
    else
      var n := |payments| - 1;
      var r := FindKey(payments[..n], key);
      if r.Some? then r else if payments[n].key == key then Some(n) else None
  }

  /** The customer whose wallet pays: the participant's when one is named, else the account's. */
  function Payer(s: Bar, account: nat, participant: Option<nat>): Option<nat> {
    if participant.Some? then (if participant.value < |s.participants| then s.participants[participant.value] else None)
    else if account < |s.accounts| then s.accounts[account].customer else None
  }

  function MarkPartiallyPaid(accounts: seq<Account>, account: nat): seq<Account>
    requires account < |accounts|
  {
    if accounts[account].status.Open? then accounts[account := accounts[account].(status := PartiallyPaid)]
    else accounts
  }

  function Record(s: Bar, account: nat, participant: Option<nat>, amount: int, means: Means, key: nat): (Bar, Outcome) {
    var existing := FindKey(s.payments, key);
    if existing.Some? then (s, Replayed(existing.value))
    else if amount <= 0 then (s, Invalid)
    else if account >= |s.accounts| then (s, Missing)
    else if s.accounts[account].status.Closed? then (s, Invalid)
    else
      var change := Max(0, amount - DueTotal(s, account));
      var id := |s.payments|;
      if means != WalletCredit then
        (s.(payments := s.payments + [Payment(account, participant, amount, means, Recorded, key)],
            accounts := MarkPartiallyPaid(s.accounts, account)), Ok(id, change))
      else
        var payer := Payer(s, account, participant);
        if payer.None? then (s, Invalid)
        else
          var (ledger, r) := Apply(s.ledger, DebitForAccount(payer.value, account, amount));
          if r != Done then
            (s.(ledger := ledger, payments :=
              s.payments + [Payment(account, participant, amount, means, Failed, key)]), WalletRefused(r))
          else
            (s.(ledger := ledger, payments :=
              s.payments + [Payment(account, participant, amount, means, Recorded, key)],
                accounts := MarkPartiallyPaid(s.accounts, account)), Ok(id, change))
  }

  function Reverse(s: Bar, id: nat, blankReason: bool): (Bar, Outcome) {
    if blankReason then (s, Invalid)
    else if id >= |s.payments| then (s, Missing)
    else
      var p := s.payments[id];
      if p.status.Reversed? then (s, Replayed(id))
      else if !p.status.Recorded? then (s, Invalid)
      else if p.means != WalletCredit then (s.(payments := s.payments[id := p.(status := Reversed)]), Ok(id, 0))
      else
        var payer := Payer(s, p.account, p.participant);
        if payer.None? then (s, Invalid)
        else
          var (ledger, r) := Apply(s.ledger, RefundForAccount(payer.value, p.account, p.amount));
          if r != Done then (s.(ledger := ledger), WalletRefused(r))
          else (s.(ledger := ledger, payments := s.payments[id := p.(status := Reversed)]), Ok(id, 0))
  }

  datatype Op =
    | RecordPayment(account: nat, participant: Option<nat>, amount: int, means: Means, key: nat)
    | ReversePayment(payment: nat, blankReason: bool)
    | OpenAccount(customer: Option<nat>)
    | AddParticipant(customer: Option<nat>)
    | AddLine(account: nat, quantity: real, unitPrice: int)
    | VoidLine(line: nat)
    | CloseAccount(account: nat, force: bool)
    | OtherWalletOp(op: WalletLedger.Op)

  function Step(s: Bar, op: Op): Bar {
    match op
    case RecordPayment(a, p, amount, m, k) => Record(s, a, p, amount, m, k).0
    case ReversePayment(id, blank) => Reverse(s, id, blank).0
    case OpenAccount(c) => s.(accounts := s.accounts + [Account(Open, c)])
    case AddParticipant(c) => s.(participants := s.participants + [c])
    case AddLine(a, q, u) =>
      if q > 0.0 && a < |s.accounts| && !s.accounts[a].status.Closed?
      then s.(lines := s.lines + [SaleLine(a, q, u, false)]) else s
    case VoidLine(i) => if i < |s.lines| then s.(lines := s.lines[i := s.lines[i].(voided := true)]) else s
    case CloseAccount(a, force) =>
      if a < |s.accounts| && (force || DueTotal(s, a) == 0)
      then s.(accounts := s.accounts[a := s.accounts[a].(status := Closed)]) else s
    case OtherWalletOp(w) => s.(ledger := Apply(s.ledger, w).0)
  }

  /** Other wallet traffic: anything with non-negative amounts except bar debits and bar refunds. */
  predicate Allowed(op: Op) {
    op.OtherWalletOp? ==> NonNegative(op.op) && !op.op.DebitForAccount? && !op.op.RefundForAccount?
  }

  const INITIAL := Bar(EMPTY, [], [], [], [])

  function Run(ops: seq<Op>): Bar {
    if ops == [] then INITIAL else Step(Run(ops[..|ops| - 1]), ops[|ops| - 1])
  }

  // ---------------------------------------------------------------------
  // How each wallet operation moves the net debit of a bar account
  // ---------------------------------------------------------------------

  function AccountNet(l: Ledger, account: nat): int {
    AccountDebits(l, account).Total - AccountRefunds(l, account).Total
  }

  predicate SameAccountRows(l: Ledger, l': Ledger, account: nat) {
    && AccountDebits(l', account) == AccountDebits(l, account)
    && AccountRefunds(l', account) == AccountRefunds(l, account)
  }

  predicate OtherKind(k: Kind) { !k.DebitNextoreAccount? && !k.RefundNextoreAccount? }

  lemma {:induction false} RowsLeaveAccount(l: Ledger, l': Ledger, p: Purpose, b: ByOrigin, debit: bool, account: nat)
    requires NonNeg(b) && Written(l.rows, l'.rows, p, b, debit)
    requires OtherKind(p.kind) || p.account != Some(account)
    ensures SameAccountRows(l, l', account)
  {
    hide Sum;
    forall o ensures !Concerns(p, AccountRows(DebitNextoreAccount, account, o))
      && !Concerns(p, AccountRows(RefundNextoreAccount, account, o)) {}
  }

  lemma {:induction false} AuditLeavesAccount(l: Ledger, l': Ledger, r: Row, account: nat)
    requires WrittenRow(l.rows, l'.rows, r) && OtherKind(r.kind)
    ensures SameAccountRows(l, l', account)
  {
    hide Sum;
    forall o ensures !Selects(AccountRows(DebitNextoreAccount, account, o), r)
      && !Selects(AccountRows(RefundNextoreAccount, account, o), r) {}
  }

  lemma {:induction false} DebitLeavesAccount(l: Ledger, p: Purpose, amount: int, account: nat)
    requires OtherKind(p.kind) || p.account != Some(account)
    ensures SameAccountRows(l, Debit(l, p, amount).0, account)
  {
    hide Sum, Reserved, RowsOf, Balance, Available;
    var b := Greedy(amount, Balance(l, p.wallet));
    assert NonNeg(b);
    hide Greedy, NonNeg, SameAccountRows;
    assert SameAccountRows(l, l, account) by { NothingLeavesAccount(l, account); }
    RowsAreWritten(l.rows, p, b, true);
    RowsLeaveAccount(l, AddRows(l, RowsOf(p, b, true)), p, b, true, account);
  }

  lemma {:induction false} NothingLeavesAccount(l: Ledger, account: nat)
    ensures SameAccountRows(l, l, account)
  {
  }

  lemma {:induction false} RefundLeavesAccount(l: Ledger, p: Purpose, amount: int, refundable: ByOrigin, account: nat)
    requires NonNeg(refundable) && amount >= 0
    requires OtherKind(p.kind) || p.account != Some(account)
    ensures SameAccountRows(l, Refund(l, p, amount, refundable).0, account)
  {
    hide Sum, Reserved, RowsOf, Proportional;
    if amount <= refundable.Total {
      ProportionalIsFair(amount, refundable, Paid);
      var b := Proportional(amount, refundable);
      RowsAreWritten(l.rows, p, b, false);
      RowsLeaveAccount(l, AddRows(l, RowsOf(p, b, false)), p, b, false, account);
    }
  }

  lemma {:induction false} CaptureLeavesAccount(l: Ledger, i: nat, account: nat)
    requires i < |l.holds|
    ensures SameAccountRows(l, Capture(l, i).0, account)
  {
    hide Sum, Reserved, RowsOf;
    var h := l.holds[i];
    var g := Greedy(h.amount, Balance(l, h.wallet));
    var p := Purpose(h.wallet, DebitBooking, Some(h.booking), None, Some(i));
    CaptureWrites(l, i, g);
    var mid := Ledger(l.rows + RowsOf(p, g, true), l.holds);
    RowsLeaveAccount(l, mid, p, g, true, account);
    AuditLeavesAccount(mid, Ledger(mid.rows + [AuditRow(h, i, HoldCaptured, h.amount)], l.holds),
      AuditRow(h, i, HoldCaptured, h.amount), account);
  }

  lemma {:induction false} HoldRowLeavesAccount(l: Ledger, r: Row, holds: seq<Hold>, account: nat)
    requires OtherKind(r.kind)
    ensures SameAccountRows(l, Ledger(l.rows + [r], holds), account)
  {
    hide Sum;
    RowIsWritten(l.rows, r);
    AuditLeavesAccount(l, Ledger(l.rows + [r], holds), r, account);
  }

  /** Every other wallet operation leaves the debits and refunds of every bar account alone. */
  lemma {:induction false} OtherOpsLeaveAccount(l: Ledger, op: WalletLedger.Op, account: nat)
    requires WalletInv(l) && NonNegative(op)
    requires !op.DebitForAccount? && !op.RefundForAccount?
    ensures SameAccountRows(l, Apply(l, op).0, account)
  {
    hide Sum, Reserved, RowsOf, Greedy, Proportional;
    match op
    case CreditFromPackPurchase(w, p, b) =>
      var x := Purpose(w, CreditPackPurchase, None, None, None);
      var y := Purpose(w, CreditPackBonus, None, None, None);
      var paid, bonus := ByOrigin(p, 0, 0), ByOrigin(0, b, 0);
      var mid := AddRows(l, RowsOf(x, paid, false));
      RowsAreWritten(l.rows, x, paid, false);
      RowsLeaveAccount(l, mid, x, paid, false, account);
      RowsAreWritten(mid.rows, y, bonus, false);
      RowsLeaveAccount(mid, AddRows(mid, RowsOf(y, bonus, false)), y, bonus, false, account);
      assert AddRows(mid, RowsOf(y, bonus, false)).rows == l.rows + PackRows(w, p, b);
    case CreditAdminOp(w, a) =>
      if a > 0 {
        var x, comp := Purpose(w, CreditAdmin, None, None, None), ByOrigin(0, 0, a);
        RowsAreWritten(l.rows, x, comp, false);
        RowsLeaveAccount(l, AddRows(l, RowsOf(x, comp, false)), x, comp, false, account);
      }
    case DebitAdmin(w, a) => DebitLeavesAccount(l, Purpose(w, Adjustment, None, None, None), a, account);
    case DebitForBooking(w, b, a) => DebitLeavesAccount(l, Purpose(w, DebitBooking, Some(b), None, None), a, account);
    case RefundForBooking(w, b, a) =>
      assert RefundsOkFor(l, b);
      RefundLeavesAccount(l, Purpose(w, RefundBooking, Some(b), None, None), a,
        Minus(BookingDebits(l, b), BookingRefunds(l, b)), account);
    case CreateHold(w, b, a) =>
      var h := Hold(w, b, a, Active);
      HoldRowLeavesAccount(l, AuditRow(h, |l.holds|, HoldCreated, a), l.holds + [h], account);
    case ReleaseHold(h) => if h < |l.holds| { ShrinkLeavesAccount(l, h, l.holds[h].amount, account); }
    case ReleaseHoldPartially(h, a) =>
      if h < |l.holds| { ShrinkLeavesAccount(l, h, l.holds[h].amount, account); ShrinkLeavesAccount(l, h, a, account); }
    case CaptureHold(h) => if h < |l.holds| { CaptureLeavesAccount(l, h, account); }
  }

  lemma {:induction false} ShrinkLeavesAccount(l: Ledger, i: nat, amount: int, account: nat)
    requires i < |l.holds|
    ensures SameAccountRows(l, ReleaseCas(l, i, amount), account)
    ensures SameAccountRows(l, ReduceCas(l, i, amount), account)
  {
    hide Sum;
    var h := l.holds[i];
    HoldRowLeavesAccount(l, AuditRow(h, i, HoldReleased, amount), l.holds[i := h.(status := Released)], account);
    HoldRowLeavesAccount(l, AuditRow(h, i, HoldReleased, amount), l.holds[i := h.(amount := h.amount - amount)],
      account);
  }

  lemma {:induction false} DebitRaisesNet(l: Ledger, l': Ledger, w: nat, account: nat, b: ByOrigin)
    requires RefundsOk(l) && NonNeg(b)
    requires Written(l.rows, l'.rows, Purpose(w, DebitNextoreAccount, None, Some(account), None), b, true)
    ensures AccountNet(l', account) == AccountNet(l, account) + b.Total
  {
    hide Sum;
    assert DebitSigns(l, account, Paid) && DebitSigns(l, account, Bonus) && DebitSigns(l, account, AdminComp);
  }

  lemma {:induction false} RefundLowersNet(l: Ledger, l': Ledger, w: nat, account: nat, b: ByOrigin)
    requires NonNeg(b)
    requires Written(l.rows, l'.rows, Purpose(w, RefundNextoreAccount, None, Some(account), None), b, false)
    ensures AccountNet(l', account) == AccountNet(l, account) - b.Total
  {
    hide Sum;
  }

  /** A bar debit raises the net of its account by the amount, and of no other account. */
  lemma {:induction false} DebitMovesNet(l: Ledger, w: nat, paying: nat, amount: int, account: nat)
    requires WalletInv(l) && amount >= 0
    ensures var (l', r) := Apply(l, DebitForAccount(w, paying, amount));
            AccountNet(l', account) == AccountNet(l, account) + (if r == Done && account == paying then amount else 0)
  {
    hide Sum, Reserved, Greedy, RowsOf, AccountNet;
    var p := Purpose(w, DebitNextoreAccount, None, Some(paying), None);
    if account != paying {
      DebitLeavesAccount(l, p, amount, account);
      NetFollowsRows(l, Apply(l, DebitForAccount(w, paying, amount)).0, account);
    } else if amount <= Available(l, w) {
      var b := Greedy(amount, Balance(l, w));
      assert SolventAt(l, w);
      HoldAmountsNonNegative(l);
      ReservedNonNegative(l.holds, w);
      GreedyIsExact(amount, Balance(l, w));
      RowsAreWritten(l.rows, p, b, true);
      DebitRaisesNet(l, AddRows(l, RowsOf(p, b, true)), w, paying, b);
    }
  }

  lemma {:induction false} NetFollowsRows(l: Ledger, l': Ledger, account: nat)
    requires SameAccountRows(l, l', account)
    ensures AccountNet(l', account) == AccountNet(l, account)
  {
    hide Sum;
  }

  /** A bar refund is accepted exactly when it does not exceed the net, and lowers it by the amount. */
  lemma {:induction false} RefundMovesNet(l: Ledger, w: nat, paying: nat, amount: int, account: nat)
    requires WalletInv(l) && amount >= 0
    ensures var (l', r) := Apply(l, RefundForAccount(w, paying, amount));
            && (r == Done <==> amount <= AccountNet(l, paying))
            && AccountNet(l', account) == AccountNet(l, account) - (if r == Done && account == paying then amount
              else 0)
  {
    hide Sum, Reserved, Proportional, RowsOf;
    var p := Purpose(w, RefundNextoreAccount, None, Some(paying), None);
    var refundable := Minus(AccountDebits(l, paying), AccountRefunds(l, paying));
    assert AccountOk(l, paying);
    assert refundable.Total == AccountNet(l, paying);
    if account != paying {
      RefundLeavesAccount(l, p, amount, refundable, account);
      NetFollowsRows(l, Apply(l, RefundForAccount(w, paying, amount)).0, account);
    } else if amount <= refundable.Total {
      var b := Proportional(amount, refundable);
      ProportionalIsFair(amount, refundable, Paid);
      RowsAreWritten(l.rows, p, b, false);
      RefundLowersNet(l, AddRows(l, RowsOf(p, b, false)), w, paying, b);
    }
  }

  // ---------------------------------------------------------------------
  // The invariant
  // ---------------------------------------------------------------------

  predicate Agrees(s: Bar, account: nat) {
    AccountNet(s.ledger, account) == RecordedTotal(s.payments, account, true)
  }

  ghost predicate BarInv(s: Bar) {
    && WalletInv(s.ledger)
    && (forall p :: p in s.payments ==> p.amount > 0 && !p.status.Pending?)
    && (forall i, j :: 0 <= i < j < |s.payments| ==> s.payments[i].key != s.payments[j].key)
    && (forall a: nat :: Agrees(s, a))
  }

  lemma {:induction false} RecordedAppend(payments: seq<Payment>, p: Payment, account: nat, walletOnly: bool)
    ensures RecordedTotal(payments + [p], account, walletOnly)
            == RecordedTotal(payments, account, walletOnly) + Counted(p, account, walletOnly)
  {
    assert (payments + [p])[..|payments|] == payments;
  }

  lemma {:induction false} RecordedUpdate(payments: seq<Payment>, i: nat, p: Payment, account: nat, walletOnly: bool)
    requires i < |payments|
    ensures RecordedTotal(payments[i := p], account, walletOnly)
            == RecordedTotal(payments, account, walletOnly) - Counted(payments[i], account, walletOnly)
              + Counted(p, account, walletOnly)
  {
    var n := |payments| - 1;
    if i == n {
      assert payments[i := p][..n] == payments[..n];
    } else {
      assert payments[i := p][..n] == payments[..n][i := p];
      RecordedUpdate(payments[..n], i, p, account, walletOnly);
    }
  }

  lemma {:induction false} RecordedCovers(payments: seq<Payment>, i: nat)
    requires forall p :: p in payments ==> p.amount > 0
    requires i < |payments| && payments[i].status.Recorded? && payments[i].means.WalletCredit?
    ensures payments[i].amount <= RecordedTotal(payments, payments[i].account, true)
  {
    var n := |payments| - 1;
    RecordedNonNegative(payments[..n], payments[i].account);
    if i < n { RecordedCovers(payments[..n], i); }
  }

  lemma {:induction false} RecordedNonNegative(payments: seq<Payment>, account: nat)
    requires forall p :: p in payments ==> p.amount > 0
    ensures RecordedTotal(payments, account, true) >= 0
  {
    if payments != [] { RecordedNonNegative(payments[..|payments| - 1], account); }
  }

  lemma {:induction false} RecordKeepsInv(s: Bar, account: nat, participant: Option<nat>, amount: int, means: Means,
      key: nat)
    requires BarInv(s)
    ensures BarInv(Record(s, account, participant, amount, means, key).0)
  {
    hide RecordedTotal, SalesTotal, AccountNet, WalletInv, Apply;
    var (s', o) := Record(s, account, participant, amount, means, key);
    if s'.payments != s.payments {
      var p := s'.payments[|s.payments|];
      assert s'.payments == s.payments + [p];
      if means.WalletCredit? {
        var w := Payer(s, account, participant).value;
        WalletLedgerStep(s.ledger, DebitForAccount(w, account, amount));
        forall a: nat ensures Agrees(s', a) {
          assert Agrees(s, a);
          RecordedAppend(s.payments, p, a, true);
          DebitMovesNet(s.ledger, w, account, amount, a);
        }
      } else {
        forall a: nat ensures Agrees(s', a) {
          assert Agrees(s, a);
          RecordedAppend(s.payments, p, a, true);
        }
      }
    }
  }

  lemma {:induction false} WalletLedgerStep(l: Ledger, op: WalletLedger.Op)
    requires WalletInv(l) && NonNegative(op)
    ensures WalletInv(Apply(l, op).0)
  {
    ApplyKeepsInv(l, op);
  }

  lemma {:induction false} ReverseKeepsInv(s: Bar, id: nat, blankReason: bool)
    requires BarInv(s)
    ensures BarInv(Reverse(s, id, blankReason).0)
    ensures !Reverse(s, id, blankReason).1.WalletRefused?
  {
    hide RecordedTotal, SalesTotal, AccountNet, WalletInv, Apply;
    if !blankReason && id < |s.payments| && s.payments[id].status.Recorded? {
      var p := s.payments[id];
      var q := p.(status := Reversed);
      var payer := Payer(s, p.account, p.participant);
      var s' := Reverse(s, id, blankReason).0;
      if p.means.WalletCredit? && payer.Some? {
        WalletLedgerStep(s.ledger, RefundForAccount(payer.value, p.account, p.amount));
        assert Agrees(s, p.account);
        RecordedCovers(s.payments, id);
        RefundMovesNet(s.ledger, payer.value, p.account, p.amount, p.account);
        forall a: nat ensures Agrees(s', a) {
          assert Agrees(s, a);
          RecordedUpdate(s.payments, id, q, a, true);
          RefundMovesNet(s.ledger, payer.value, p.account, p.amount, a);
        }
      } else if !p.means.WalletCredit? {
        forall a: nat ensures Agrees(s', a) {
          assert Agrees(s, a);
          RecordedUpdate(s.payments, id, q, a, true);
        }
      }
    }
  }

  lemma {:induction false} StepKeepsInv(s: Bar, op: Op)
    requires BarInv(s) && Allowed(op)
    ensures BarInv(Step(s, op))
  {
    hide RecordedTotal, SalesTotal, AccountNet, WalletInv, Apply, Record, Reverse;
    match op
    case RecordPayment(a, p, amount, m, k) => RecordKeepsInv(s, a, p, amount, m, k);
    case ReversePayment(id, blank) => ReverseKeepsInv(s, id, blank);
    case OtherWalletOp(w) =>
      WalletLedgerStep(s.ledger, w);
      forall a: nat ensures Agrees(Step(s, op), a) {
        assert Agrees(s, a);
        OtherOpsLeaveAccount(s.ledger, w, a);
        NetFollowsRows(s.ledger, Apply(s.ledger, w).0, a);
      }
    case _ =>
      forall a: nat ensures Agrees(Step(s, op), a) { assert Agrees(s, a); }
  }

  lemma {:induction false} NoRowsNoNet(l: Ledger, account: nat)
    requires l.rows == []
    ensures AccountNet(l, account) == 0
  {
    hide Sum;
    SumEmpty(l.rows);
    assert forall o :: Sum(l.rows, AccountRows(DebitNextoreAccount, account, o)) == 0;
    assert forall o :: Sum(l.rows, AccountRows(RefundNextoreAccount, account, o)) == 0;
  }

  lemma {:induction false} NothingRecordedYet(s: Bar, account: nat)
    requires s.ledger.rows == [] && s.payments == []
    ensures Agrees(s, account)
  {
    hide AccountNet;
    NoRowsNoNet(s.ledger, account);
  }

  lemma {:induction false} InitialInv()
    ensures BarInv(INITIAL)
  {
    hide WalletInv, Agrees;
    EmptyInv();
    forall a: nat ensures Agrees(INITIAL, a) { NothingRecordedYet(INITIAL, a); }
  }

  /** Over every run: net wallet debits of each account are its recorded wallet payments. */
  lemma {:induction false} RunKeepsInv(ops: seq<Op>)
    requires forall op :: op in ops ==> Allowed(op)
    ensures BarInv(Run(ops))
  {
    hide BarInv, Step;
    if ops == [] {
      InitialInv();
    } else {
      RunKeepsInv(ops[..|ops| - 1]);
      assert ops[|ops| - 1] in ops;
      StepKeepsInv(Run(ops[..|ops| - 1]), ops[|ops| - 1]);
    }
  }

  /** After any run, reversing is never refused for giving back more than was taken. */
  lemma ReversalIsNeverRefused(ops: seq<Op>, id: nat, blankReason: bool)
    requires forall op :: op in ops ==> Allowed(op)
    ensures !Reverse(Run(ops), id, blankReason).1.WalletRefused?
  {
    RunKeepsInv(ops);
    ReverseKeepsInv(Run(ops), id, blankReason);
  }

  /**
   A recorded wallet payment with a payer is really reversed: the status changes, the payer's wallet gets exactly its
   amount back, on the origins the account was charged on, and the account's net debit falls by it.
   */
  lemma {:induction false} ReversalGivesBack(ops: seq<Op>, id: nat)
    requires forall op :: op in ops ==> Allowed(op)
    requires var s := Run(ops);
             id < |s.payments| && s.payments[id].status.Recorded? && s.payments[id].means.WalletCredit?
             && Payer(s, s.payments[id].account, s.payments[id].participant).Some?
    ensures var s := Run(ops);
            var (s', o) := Reverse(s, id, false);
            var p := s.payments[id];
            && o == Ok(id, 0) && s'.payments == s.payments[id := p.(status := Reversed)]
            && GivesBack(s.ledger, s'.ledger, Payer(s, p.account, p.participant).value, p.amount,
                         Minus(AccountDebits(s.ledger, p.account), AccountRefunds(s.ledger, p.account)))
            && AccountNet(s'.ledger, p.account) == AccountNet(s.ledger, p.account) - p.amount
  {
    hide RecordedTotal, SalesTotal, AccountNet, Apply, Run, WalletInv, GivesBack;
    RunKeepsInv(ops);
    var s := Run(ops);
    var p := s.payments[id];
    ReverseKeepsInv(s, id, false);
    RefundMovesNet(s.ledger, Payer(s, p.account, p.participant).value, p.account, p.amount, p.account);
    AccountRefundReturns(s.ledger, Payer(s, p.account, p.participant).value, p.account, p.amount);
  }

  /** A key that was ever used answers with the payment it created and changes nothing at all. */
  lemma {:induction false} ReplayChangesNothing(ops: seq<Op>, i: nat, account: nat, participant: Option<nat>,
      amount: int, means: Means)
    requires forall op :: op in ops ==> Allowed(op)
    requires i < |Run(ops).payments|
    ensures Record(Run(ops), account, participant, amount, means, Run(ops).payments[i].key) == (Run(ops), Replayed(i))
  {
    hide RecordedTotal, SalesTotal, Apply, Run, WalletInv;
    RunKeepsInv(ops);
    var s := Run(ops);
    var r := FindKey(s.payments, s.payments[i].key);
    assert s.payments[i] in s.payments;
    assert r.value == i;
  }

  lemma {:induction false} NoneRecorded(payments: seq<Payment>, account: nat)
    requires forall p :: p in payments ==> p.account == account && p.means.WalletCredit? ==> !p.status.Recorded?
    ensures RecordedTotal(payments, account, true) == 0
  {
    if payments != [] {
      assert payments[|payments| - 1] in payments;
      NoneRecorded(payments[..|payments| - 1], account);
    }
  }

  /** Once every wallet payment of an account is reversed, refunds equal debits on each origin. */
  lemma {:induction false} AllReversedMeansEven(ops: seq<Op>, account: nat)
    requires forall op :: op in ops ==> Allowed(op)
    requires forall p :: p in Run(ops).payments ==> p.account == account && p.means.WalletCredit? ==>
             !p.status.Recorded?
    ensures AccountRefunds(Run(ops).ledger, account) == AccountDebits(Run(ops).ledger, account)
  {
    hide Sum, Run, RecordedTotal;
    RunKeepsInv(ops);
    NoneRecorded(Run(ops).payments, account);
    assert Agrees(Run(ops), account) && AccountOk(Run(ops).ledger, account);
  }

  // ---------------------------------------------------------------------
  // The service as it runs
  // ---------------------------------------------------------------------

  class PaymentsService {
    const wallet: WalletService
    var payments: seq<Payment>
    var accounts: seq<Account>
    var participants: seq<Option<nat>>
    var lines: seq<SaleLine>

    function Value(): Bar
      reads this, wallet
    {
      Bar(wallet.Value(), payments, accounts, participants, lines)
    }

    constructor ()
      ensures Value() == INITIAL && fresh(wallet)
    {
      wallet := new WalletService();
      payments, accounts, participants, lines := [], [], [], [];
    }

    /** An unknown account is an error; one that is not OPEN is left alone. */
    method MarkPartiallyPaidIfOpen(account: nat) returns (found: bool)
      modifies this`accounts
      ensures found <==> account < |old(accounts)|
      ensures accounts == if found then MarkPartiallyPaid(old(accounts), account) else old(accounts)
    {
      found := account < |accounts|;
      if !found { return; }
      if accounts[account].status.Open? {
        accounts := accounts[account := accounts[account].(status := PartiallyPaid)];
      }
    }

    /** The PENDING row is written before the debit, then settled to RECORDED or FAILED. */
    method RecordPayment(account: nat, participant: Option<nat>, amount: int, means: Means, key: nat)
        returns (o: Outcome)
      modifies this, wallet
      ensures (Value(), o) == Record(old(Value()), account, participant, amount, means, key)
      ensures o.Ok? ==> payments == old(payments) + [Payment(account, participant, amount, means, Recorded, key)]
      ensures o.WalletRefused? ==>
                payments == old(payments) + [Payment(account, participant, amount, means, Failed, key)]
    {
      var existing := FindKey(payments, key);
      if existing.Some? { return Replayed(existing.value); }
      if amount <= 0 { return Invalid; }
      if account >= |accounts| { return Missing; }
      if accounts[account].status.Closed? { return Invalid; }
      var change := Max(0, amount - DueTotal(Value(), account));
      var id := |payments|;
      if means != WalletCredit {
        payments := payments + [Payment(account, participant, amount, means, Recorded, key)];
        var _ := MarkPartiallyPaidIfOpen(account);
        return Ok(id, change);
      }
      var payer := Payer(Value(), account, participant);
      if payer.None? { return Invalid; }
      payments := payments + [Payment(account, participant, amount, means, Pending, key)];
      var r := wallet.DebitForNextoreAccount(payer.value, account, amount);
      if r != Done {
        payments := payments[id := payments[id].(status := Failed)];
        assert payments == old(payments) + [Payment(account, participant, amount, means, Failed, key)];
        return WalletRefused(r);
      }
      payments := payments[id := payments[id].(status := Recorded)];
      assert payments == old(payments) + [Payment(account, participant, amount, means, Recorded, key)];
      var _ := MarkPartiallyPaidIfOpen(account);
      o := Ok(id, change);
    }

    method ReversePayment(id: nat, blankReason: bool) returns (o: Outcome)
      modifies this, wallet
      ensures (Value(), o) == Reverse(old(Value()), id, blankReason)
      ensures o.Ok? ==>
                && id < |old(payments)| && old(payments)[id].status.Recorded?
                && payments == old(payments)[id := old(payments)[id].(status := Reversed)]
      ensures !o.Ok? ==> payments == old(payments)
    {
      if blankReason { return Invalid; }
      if id >= |payments| { return Missing; }
      var p := payments[id];
      if p.status.Reversed? { return Replayed(id); }
      if !p.status.Recorded? { return Invalid; }
      if p.means.WalletCredit? {
        var payer := Payer(Value(), p.account, p.participant);
        if payer.None? { return Invalid; }
        var r := wallet.RefundForNextoreAccount(payer.value, p.account, p.amount);
        if r != Done { return WalletRefused(r); }
      }
      payments := payments[id := p.(status := Reversed)];
      o := Ok(id, 0);
    }
  }
}
