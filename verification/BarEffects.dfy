/**
 What each operation of the bar does to the money an account owes: what a payment settles, whose wallet it takes its
 amount from, what a reversal gives back, and what a sale line adds.
 */
module BarEffects {
  import opened Common
  import opened WalletLedger
  import opened WalletProofs
  import opened WalletEffects
  import opened BarPayments

  /** What one account owes changes by `d`; no other account owes more or less. */
  ghost predicate DueMoves(s: Bar, s': Bar, account: nat, d: int) {
    forall a: nat :: DueTotal(s', a) == DueTotal(s, a) + (if a == account then d else 0)
  }

  /** The named participant's customer pays, or, when nobody is named, the customer of the account. */
  predicate PaysFor(s: Bar, account: nat, participant: Option<nat>, c: nat) {
    match participant
    case Some(p) => p < |s.participants| && s.participants[p] == Some(c)
    case None => account < |s.accounts| && s.accounts[account].customer == Some(c)
  }

  /** The account is PARTIALLY_PAID afterwards, whoever it belongs to, and no other account changes. */
  predicate MarkedPaid(accounts: seq<Account>, accounts': seq<Account>, account: nat) {
    && |accounts'| == |accounts|
    && forall a: nat :: a < |accounts| ==>
         accounts'[a] == if a == account then Account(PartiallyPaid, accounts[a].customer) else accounts[a]
  }

  predicate IsNew(payments: seq<Payment>, key: nat) { forall p :: p in payments ==> p.key != key }

  /** A payment the bar may accept: a new key, a positive amount, an account that exists and is not closed. */
  predicate Payable(s: Bar, account: nat, amount: int, key: nat) {
    IsNew(s.payments, key) && amount > 0 && account < |s.accounts| && !s.accounts[account].status.Closed?
  }

  /** The change is what is paid above the due, and nothing when the due is not exceeded. */
  predicate IsChange(change: int, amount: int, due: int) {
    change >= 0 && (change > 0 <==> amount > due) && (change > 0 ==> due + change == amount)
  }

  lemma {:induction false} NewKeyIsNotFound(payments: seq<Payment>, key: nat)
    ensures FindKey(payments, key).None? <==> IsNew(payments, key)
  {
    var r := FindKey(payments, key);
    if r.Some? { assert payments[r.value] in payments; }
  }

  lemma {:induction false} RowMovesDue(s: Bar, s': Bar, p: Payment)
    requires s'.payments == s.payments + [p] && s'.lines == s.lines
    ensures DueMoves(s, s', p.account, if p.status.Recorded? then -p.amount else 0)
  {
    hide SalesTotal, RecordedTotal;
    forall a: nat ensures DueTotal(s', a) == DueTotal(s, a) + (if a == p.account && p.status.Recorded? then -p.amount
      else 0) {
      RecordedAppend(s.payments, p, a, false);
    }
  }

  /** A new payment stands with its own status, and lowers what its account owes if that is RECORDED. */
  ghost predicate Adds(s: Bar, s': Bar, p: Payment) {
    && s'.payments == s.payments + [p] && s'.lines == s.lines && s'.participants == s.participants
    && DueMoves(s, s', p.account, if p.status.Recorded? then -p.amount else 0)
    && (if p.status.Recorded? then MarkedPaid(s.accounts, s'.accounts, p.account) else s'.accounts == s.accounts)
  }

  /** Cash and card: always accepted, and the ledger is left alone. */
  lemma {:induction false} CashOrCardIsRecorded(s: Bar, account: nat, participant: Option<nat>, amount: int,
      means: Means, key: nat)
    requires Payable(s, account, amount, key) && !means.WalletCredit?
    ensures var (s', o) := Record(s, account, participant, amount, means, key);
            && o.Ok? && o.payment == |s.payments| && IsChange(o.change, amount, DueTotal(s, account))
            && Adds(s, s', Payment(account, participant, amount, means, Recorded, key)) && s'.ledger == s.ledger
  {
    hide FindKey, SalesTotal, RecordedTotal;
    NewKeyIsNotFound(s.payments, key);
    RowMovesDue(s, Record(s, account, participant, amount, means, key).0,
      Payment(account, participant, amount, means, Recorded, key));
  }

  /**
   Credits: accepted exactly when the payer's available balance covers the amount; then the payer's wallet spends it in
   the fixed order, on this account's bill. Otherwise a FAILED row is all that is left.
   */
  lemma {:induction false} WalletPaymentIsTaken(s: Bar, account: nat, participant: Option<nat>, amount: int, key: nat,
      c: nat)
    requires WalletInv(s.ledger) && Payable(s, account, amount, key) && PaysFor(s, account, participant, c)
    ensures var (s', o) := Record(s, account, participant, amount, WalletCredit, key);
            if amount <= Available(s.ledger, c) then
              && o.Ok? && o.payment == |s.payments| && IsChange(o.change, amount, DueTotal(s, account))
              && Adds(s, s', Payment(account, participant, amount, WalletCredit, Recorded, key))
              && Changes(s.ledger, s'.ledger, c, Minus(Balance(s'.ledger, c), Balance(s.ledger, c)), 0)
              && SpentInOrder(Balance(s.ledger, c), Balance(s'.ledger, c), amount)
              && BillMoves(s.ledger, s'.ledger, account, amount)
            else
              && o.WalletRefused? && s'.ledger == s.ledger
              && Adds(s, s', Payment(account, participant, amount, WalletCredit, Failed, key))
  {
    hide FindKey, SalesTotal, RecordedTotal, WalletInv, Sum, Reserved, Debit, AccountNet, Changes, Balance, Available;
    NewKeyIsNotFound(s.payments, key);
    var (s', o) := Record(s, account, participant, amount, WalletCredit, key);
    assert Payer(s, account, participant) == Some(c);
    DebitSpends(s.ledger, Purpose(c, DebitNextoreAccount, None, Some(account), None), amount);
    RowMovesDue(s, s', Payment(account, participant, amount, WalletCredit,
      if amount <= Available(s.ledger, c) then Recorded else Failed, key));
    forall a: nat
      ensures AccountNet(s'.ledger, a) == AccountNet(s.ledger, a) + (if a == account && o.Ok? then amount else 0) {
      DebitMovesNet(s.ledger, c, account, amount, a);
    }
  }

  /** What wallets have paid for one account changes by `d`, and for no other. */
  ghost predicate BillMoves(l: Ledger, l': Ledger, account: nat, d: int) {
    forall a: nat :: AccountNet(l', a) == AccountNet(l, a) + (if a == account then d else 0)
  }

  /** The wallet of whoever pays changes by `d`. */
  ghost predicate PayerMoves(s: Bar, s': Bar, account: nat, participant: Option<nat>, d: int) {
    forall c: nat :: PaysFor(s, account, participant, c) ==> Total(s'.ledger, c) == Total(s.ledger, c) + d
  }

  /** Everything else is refused in this order, without any effect. */
  lemma {:induction false} RefusedChangesNothing(s: Bar, account: nat, participant: Option<nat>, amount: int,
      means: Means, key: nat)
    requires !Payable(s, account, amount, key)
             || (means.WalletCredit? && forall c: nat :: !PaysFor(s, account, participant, c))
    ensures var (s', o) := Record(s, account, participant, amount, means, key);
            && s' == s
            && (if !IsNew(s.payments, key) then o.Replayed? && o.payment < |s.payments|
              && s.payments[o.payment].key == key
                else o == if amount > 0 && account >= |s.accounts| then Missing else Invalid)
  {
    hide FindKey, SalesTotal, RecordedTotal;
    NewKeyIsNotFound(s.payments, key);
    var payer := Payer(s, account, participant);
    if payer.Some? && account < |s.accounts| { assert PaysFor(s, account, participant, payer.value); }
  }

  // ---------------------------------------------------------------------
  // Reversals
  // ---------------------------------------------------------------------

  lemma {:induction false} ReversedRowMovesDue(s: Bar, s': Bar, id: nat)
    requires id < |s.payments| && s.payments[id].status.Recorded? && s'.lines == s.lines
    requires s'.payments == s.payments[id := s.payments[id].(status := Reversed)]
    ensures DueMoves(s, s', s.payments[id].account, s.payments[id].amount)
  {
    hide SalesTotal, RecordedTotal;
    var p := s.payments[id];
    forall a: nat ensures DueTotal(s', a) == DueTotal(s, a) + (if a == p.account then p.amount else 0) {
      RecordedUpdate(s.payments, id, p.(status := Reversed), a, false);
    }
  }

  /**
   A RECORDED payment is reversed for a reason: it stands as REVERSED and its account owes its amount again. Cash and
   card touch no wallet; credits go back to the wallet that would pay, which must still be known.
   */
  lemma {:induction false} ReversalRaisesDue(s: Bar, id: nat)
    requires BarInv(s) && id < |s.payments| && s.payments[id].status.Recorded?
    ensures var p := s.payments[id];
            var (s', o) := Reverse(s, id, false);
            if p.means.WalletCredit? && forall c: nat :: !PaysFor(s, p.account, p.participant, c) then
              o == Invalid && s' == s
            else
              && o == Ok(id, 0) && s' == s.(ledger := s'.ledger, payments := s.payments[id := p.(status := Reversed)])
              && DueMoves(s, s', p.account, p.amount)
              && (!p.means.WalletCredit? ==> s'.ledger == s.ledger)
              && (p.means.WalletCredit? ==>
                    && PayerMoves(s, s', p.account, p.participant, p.amount)
                    && BillMoves(s.ledger, s'.ledger, p.account, -p.amount))
  {
    hide SalesTotal, RecordedTotal, WalletInv, Refund, AccountNet, Agrees;
    var p := s.payments[id];
    var (s', o) := Reverse(s, id, false);
    ReverseKeepsInv(s, id, false);
    var payer := Payer(s, p.account, p.participant);
    if !p.means.WalletCredit? {
      ReversedRowMovesDue(s, s', id);
    } else if payer.Some? {
      assert PaysFor(s, p.account, p.participant, payer.value);
      ReversedRowMovesDue(s, s', id);
      RefundRaisesTotal(s.ledger, payer.value, p.account, p.amount);
      forall a: nat
        ensures AccountNet(s'.ledger, a) == AccountNet(s.ledger, a) + (if a == p.account then -p.amount else 0) {
        RefundMovesNet(s.ledger, payer.value, p.account, p.amount, a);
      }
    }
  }

  lemma {:induction false} RefundRaisesTotal(l: Ledger, w: nat, account: nat, amount: int)
    requires WalletInv(l) && amount >= 0
    ensures var (l', r) := Apply(l, RefundForAccount(w, account, amount));
            r == Done ==> Total(l', w) == Total(l, w) + amount
  {
    hide WalletInv, Apply, AccountDebits, AccountRefunds, Sum, Reserved, Changes;
    AccountRefundReturns(l, w, account, amount);
    var (l', r) := Apply(l, RefundForAccount(w, account, amount));
    if r == Done {
      var back: ByOrigin :| back.Total == amount && Changes(l, l', w, back, 0);
      MovesTotal(l, l', w, back);
    }
  }

  lemma {:induction false} MovesTotal(l: Ledger, l': Ledger, w: nat, d: ByOrigin)
    requires Changes(l, l', w, d, 0)
    ensures Total(l', w) == Total(l, w) + d.Total
  {
    hide Sum, Reserved;
    assert ChangesAt(l, l', w, w, d, 0);
  }

  /** Without a reason, without a payment, twice, or for a FAILED payment: refused without any effect. */
  lemma {:induction false} OnlyRecordedIsReversed(s: Bar, id: nat, blankReason: bool)
    requires blankReason || id >= |s.payments| || !s.payments[id].status.Recorded?
    ensures Reverse(s, id, blankReason) ==
            (s, if blankReason then Invalid else if id >= |s.payments| then Missing
                else if s.payments[id].status.Reversed? then Replayed(id) else Invalid)
  {
  }

  /**
   After any run, an accepted payment can be reversed at once, and then every account owes what it owed before; a
   payment in credits has then cost its payer nothing.
   */
  lemma {:induction false} PaidThenReversed(ops: seq<BarPayments.Op>, account: nat, participant: Option<nat>,
      amount: int,
      means: Means, key: nat)
    requires forall op :: op in ops ==> Allowed(op)
    requires Record(BarPayments.Run(ops), account, participant, amount, means, key).1.Ok?
    ensures var s := BarPayments.Run(ops);
            var (s', o) := Record(s, account, participant, amount, means, key);
            var (t, u) := Reverse(s', o.payment, false);
            && u == Ok(|s.payments|, 0) && t.accounts == s'.accounts
            && t.payments == s.payments + [Payment(account, participant, amount, means, Reversed, key)]
            && (forall a: nat :: DueTotal(t, a) == DueTotal(s, a))
            && (!means.WalletCredit? ==> t.ledger == s.ledger)
            && (means.WalletCredit? ==>
                  PayerMoves(s, t, account, participant, 0) && BillMoves(s.ledger, t.ledger, account, 0))
  {
    hide BarPayments.Run, WalletInv, Record, Reverse, DueTotal, FindKey, AccountNet, Agrees, Total, Balance, Available,
      Reserved;
    var s := BarPayments.Run(ops);
    BarPayments.RunKeepsInv(ops);
    RecordKeepsInv(s, account, participant, amount, means, key);
    AcceptedAdds(s, account, participant, amount, means, key);
    var (s', o) := Record(s, account, participant, amount, means, key);
    ReversalRaisesDue(s', o.payment);
    var t := Reverse(s', o.payment, false).0;
    var p := Payment(account, participant, amount, means, Recorded, key);
    assert (s.payments + [p])[|s.payments| := p.(status := Reversed)] == s.payments + [p.(status := Reversed)];
    SamePayers(s, s', account, participant);
  }

  lemma {:induction false} SamePayers(s: Bar, s': Bar, account: nat, participant: Option<nat>)
    requires account < |s.accounts| && s'.participants == s.participants && MarkedPaid(s.accounts, s'.accounts, account)
    ensures forall c: nat :: PaysFor(s', account, participant, c) <==> PaysFor(s, account, participant, c)
  {
  }

  /**
   What every accepted payment does, in whatever means. The change exceeds the payment itself exactly when the account
   had been overpaid before.
   */
  lemma {:induction false} AcceptedAdds(s: Bar, account: nat, participant: Option<nat>, amount: int, means: Means,
      key: nat)
    requires WalletInv(s.ledger) && Record(s, account, participant, amount, means, key).1.Ok?
    ensures var (s', o) := Record(s, account, participant, amount, means, key);
            && Payable(s, account, amount, key) && o.payment == |s.payments|
            && IsChange(o.change, amount, DueTotal(s, account)) && (o.change > amount <==> DueTotal(s, account) < 0)
            && Adds(s, s', Payment(account, participant, amount, means, Recorded, key))
            && (!means.WalletCredit? ==> s'.ledger == s.ledger)
            && (means.WalletCredit? ==>
                  && (exists c: nat :: PaysFor(s, account, participant, c))
                  && PayerMoves(s, s', account, participant, -amount)
                  && BillMoves(s.ledger, s'.ledger, account, amount))
  {
    hide Record, WalletInv, DueTotal, IsNew, AccountNet, Sum, Reserved, Changes;
    if !Payable(s, account, amount, key)
      || (means.WalletCredit? && forall c: nat :: !PaysFor(s, account, participant, c)) {
      RefusedChangesNothing(s, account, participant, amount, means, key);
    } else if !means.WalletCredit? {
      CashOrCardIsRecorded(s, account, participant, amount, means, key);
    } else {
      var s' := Record(s, account, participant, amount, means, key).0;
      var c: nat :| PaysFor(s, account, participant, c);
      WalletPaymentIsTaken(s, account, participant, amount, key, c);
      MovesTotal(s.ledger, s'.ledger, c, Minus(Balance(s'.ledger, c), Balance(s.ledger, c)));
    }
  }

  // ---------------------------------------------------------------------
  // Sales
  // ---------------------------------------------------------------------

  /** A line costs its exact price to the nearest cent, halves up. */
  lemma {:induction false} LineIsRounded(x: SaleLine)
    ensures var exact := x.quantity * x.unitPrice as real;
            exact - 0.5 < LineTotal(x) as real <= exact + 0.5
  {
    var y := x.quantity * x.unitPrice as real + 0.5;
    assert y.Floor as real <= y < y.Floor as real + 1.0;
  }

  lemma {:induction false} SalesAppend(lines: seq<SaleLine>, x: SaleLine, account: nat)
    ensures SalesTotal(lines + [x], account)
            == SalesTotal(lines, account) + (if x.account == account && !x.voided then LineTotal(x) else 0)
  {
    hide LineTotal;
    assert (lines + [x])[..|lines|] == lines;
  }

  lemma {:induction false} SalesVoid(lines: seq<SaleLine>, i: nat, account: nat)
    requires i < |lines|
    ensures SalesTotal(lines[i := lines[i].(voided := true)], account) ==
            SalesTotal(lines, account)
            - (if lines[i].account == account && !lines[i].voided then LineTotal(lines[i]) else 0)
  {
    hide LineTotal;
    var n := |lines| - 1;
    var voided := lines[i].(voided := true);
    if i == n {
      assert lines[i := voided][..n] == lines[..n];
    } else {
      assert lines[i := voided][..n] == lines[..n][i := voided];
      SalesVoid(lines[..n], i, account);
    }
  }

  /**
   A line sold on an account that is not closed adds its price to what that account owes, voiding takes it off once;
   closing, opening and wallet traffic leave every due alone, and an account is only closed by force or with nothing
   due.
   */
  lemma {:induction false} SalesMoveDue(s: Bar, op: BarPayments.Op)
    requires !op.RecordPayment? && !op.ReversePayment?
    ensures var s' := BarPayments.Step(s, op);
            match op
            case AddLine(a, q, u) =>
              DueMoves(s, s', a, if q > 0.0 && a < |s.accounts| && !s.accounts[a].status.Closed?
                                 then LineTotal(SaleLine(a, q, u, false)) else 0)
            case VoidLine(i) =>
              if i < |s.lines| then
                DueMoves(s, s', s.lines[i].account, if s.lines[i].voided then 0 else -LineTotal(s.lines[i]))
              else s' == s
            case CloseAccount(a, force) =>
              && s' == s.(accounts := s'.accounts) && |s'.accounts| == |s.accounts|
              && forall b: nat :: b < |s.accounts| ==>
                   s'.accounts[b] == if b == a && (force || DueTotal(s, a) == 0)
                                     then Account(Closed, s.accounts[b].customer) else s.accounts[b]
            case _ => forall a: nat :: DueTotal(s', a) == DueTotal(s, a)
  {
    hide SalesTotal, RecordedTotal, LineTotal;
    match op
    case AddLine(a, q, u) =>
      var line := SaleLine(a, q, u, false);
      forall b: nat ensures SalesTotal(s.lines + [line], b) == SalesTotal(s.lines, b) + (if b == a then LineTotal(line)
        else 0) {
        SalesAppend(s.lines, line, b);
      }
    case VoidLine(i) =>
      if i < |s.lines| {
        var x := s.lines[i];
        var lines := s.lines[i := x.(voided := true)];
        forall b: nat ensures SalesTotal(lines, b) == SalesTotal(s.lines, b)
          - (if b == x.account && !x.voided then LineTotal(x) else 0) {
          SalesVoid(s.lines, i, b);
        }
      }
    case _ =>
  }
}
