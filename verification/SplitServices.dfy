/**
 The SPLIT services as they run: share and guarantee updates, settlement, and one whole `payShare` call,
 which is shown to be a run of the protocol steps, so the interleaving theorems of SplitProtocol speak
 about this code.
 */
module SplitServices {
  import opened Common
  import opened WalletLedger
  import opened WalletProofs
  import opened WalletEffects
  import opened WalletServices
  import opened SplitProtocol

  /** `n` consecutive repository calls of payer `p`, with nobody in between. */
  ghost function Drive(s: Split, p: nat, ok: bool, n: nat): Split {
    if n == 0 then s
    else
      var t := Drive(s, p, ok, n - 1);
      if ShapeOk(t) then Step(t, Go(p, ok)) else t
  }

  /** One more protocol step of the running call. */
  lemma {:induction false} Advance(s: Split, s0: Split, p: nat, ok: bool, n: nat)
    requires s == Drive(s0, p, ok, n) && ShapeOk(s)
    ensures Step(s, Go(p, ok)) == Drive(s0, p, ok, n + 1)
  {
  }

  datatype PayResult = ShareNotFound | PaidShare | AlreadyPaid | NotPayable | PaymentRefused | ChargedForNothing

  /** Which phase each answer leaves its payer in. */
  predicate Ends(r: PayResult, ph: Phase) {
    match r
    case ShareNotFound => false
    case PaidShare => ph.Finished?
    case ChargedForNothing => ph.DoublePayment?
    case _ => ph.Rejected?
  }

  class SplitBooking {
    const booking: nat
    const wallet: WalletService
    var shares: seq<SplitProtocol.Share>
    var g: Guarantee
    ghost var payers: seq<Payer>
    ghost var collected: seq<nat>
    ghost var cards: int

    ghost function Value(): Split
      reads this, wallet
    {
      Split(booking, wallet.Value(), shares, g, payers, collected, cards)
    }

    constructor (booking: nat, wallet: WalletService, shares: seq<SplitProtocol.Share>, g: Guarantee,
        ghost collected: seq<nat>, ghost cards: int)
      ensures Value() == Split(booking, wallet.Value(), shares, g, [], collected, cards) && this.wallet == wallet
    {
      this.booking, this.wallet, this.shares, this.g := booking, wallet, shares, g;
      this.payers, this.collected, this.cards := [], collected, cards;
    }

    method UpdateStatus(i: nat, st: ShareStatus)
      requires i < |shares|
      modifies this`shares
      ensures shares == old(shares)[i := old(shares)[i].(status := st)]
    {
      shares := shares[i := shares[i].(status := st)];
    }

    /** Only one of two racing payers can see `true`: the second finds PAYMENT_PENDING. */
    method ClaimForPayment(i: nat) returns (claimed: bool)
      modifies this`shares
      ensures claimed <==> i < |old(shares)| && (old(shares)[i].status.Open? || old(shares)[i].status.Invited?)
      ensures shares == if claimed then old(shares)[i := old(shares)[i].(status := PaymentPending)] else old(shares)
    {
      claimed := i < |shares| && (shares[i].status.Open? || shares[i].status.Invited?);
      if claimed { UpdateStatus(i, PaymentPending); }
    }

    method MarkPaidIfPayable(i: nat) returns (marked: bool)
      modifies this`shares
      ensures marked <==> i < |old(shares)| && Payable(old(shares)[i].status)
      ensures shares == if marked then old(shares)[i := old(shares)[i].(status := ShareStatus.Paid)] else old(shares)
    {
      marked := i < |shares| && Payable(shares[i].status);
      if marked { UpdateStatus(i, ShareStatus.Paid); }
    }

    /** Conditional decrement of the guarantee. */
    method ReleaseAmount(amount: int) returns (released: bool)
      modifies this`g
      ensures released <==> (old(g).status.Active? || old(g).status.PartiallyReleased?) && old(g).remaining >= amount
      ensures g == if released then old(g).(remaining := old(g).remaining - amount) else old(g)
    {
      released := (g.status.Active? || g.status.PartiallyReleased?) && g.remaining >= amount;
      if released { g := g.(remaining := g.remaining - amount); }
    }

    /** Every share that is not PAID is covered by the organiser now, over the same amount. */
    static predicate AllCovered(before: seq<SplitProtocol.Share>, after: seq<SplitProtocol.Share>) {
      && |after| == |before|
      && forall i :: 0 <= i < |before| ==>
           after[i] == SplitProtocol.Share(before[i].total, if before[i].status.Paid? then ShareStatus.Paid
                                           else CoveredByOrganizer)
    }

    /** The loop over the unpaid shares covers exactly those, and nothing else. */
    method CoverUnpaidSharesWithGuarantee()
      modifies this`shares
      ensures shares == Cover(old(shares)) && AllCovered(old(shares), shares)
    {
      var k := 0;
      while k < |shares|
        invariant 0 <= k <= |shares| == |old(shares)|
        invariant forall i :: 0 <= i < k ==> shares[i] == Cover(old(shares))[i]
        invariant forall i :: k <= i < |shares| ==> shares[i] == old(shares)[i]
      {
        if Payable(shares[k].status) { UpdateStatus(k, CoveredByOrganizer); }
        k := k + 1;
      }
    }

    /** Settlement: capture what remains, then cover. A refused card leaves a FAILED guarantee and covers nothing. */
    method Settle(cardAccepted: bool) returns (captured: int)
      requires ShapeOk(Value())
      modifies this, wallet
      ensures Value() == Step(old(Value()), SplitProtocol.Settle(cardAccepted))
      ensures captured == g.captured - old(g).captured
      ensures g.kind == old(g).kind && payers == old(payers)
      ensures var nothing := old(g).status.Released? || old(g).status.Consumed? || old(g).remaining == 0;
              var refused := !nothing && old(g).kind.CardOffSession? && !cardAccepted;
              && captured == (if nothing || refused then 0 else old(g).remaining)
              && g == (if nothing then old(g) else if refused then old(g).(status := GuaranteeStatus.Failed)
                       else old(g).(status := Consumed, remaining := 0, captured := old(g).captured + captured))
              && (if refused then shares == old(shares) else AllCovered(old(shares), shares))
              && cards == (if g.kind.CardOffSession? then old(cards) + captured else old(cards))
              && wallet.Value() == (if nothing || g.kind.CardOffSession? then old(wallet.Value())
                                    else Apply(old(wallet.Value()), Op.CaptureHold(g.kind.hold)).0)
    {
      hide Apply;
      if g.status.Released? || g.status.Consumed? || g.remaining == 0 {
        CoverUnpaidSharesWithGuarantee();
        return 0;
      }
      if g.kind.WalletReserve? {
        var _ := wallet.CaptureHold(g.kind.hold);
      } else if !cardAccepted {
        g := g.(status := GuaranteeStatus.Failed);
        return 0;
      }
      captured := g.remaining;
      if g.kind.CardOffSession? { cards := cards + captured; }
      g := g.(status := Consumed, remaining := 0, captured := g.captured + captured);
      CoverUnpaidSharesWithGuarantee();
    }

    /** Payer `p` is between two calls, on share `i`. */
    ghost predicate Running(p: nat)
      reads this, wallet
    {
      ShapeOk(Value()) && p < |payers|
    }

    // Each call below performs one protocol step of payer `p`.

    method ReadShareCall(i: nat, ghost p: nat, ghost ok: bool) returns (st: ShareStatus)
      requires Running(p) && payers[p].phase.Start? && payers[p].share == i
      modifies this`payers
      ensures Running(p) && Value() == Step(old(Value()), Go(p, ok)) && st == shares[i].status
      ensures payers ==
              old(payers)[p := old(payers)[p].(phase := if st.Open? || st.Invited? then Seen(st) else Rejected)]
    {
      st := shares[i].status;
      payers := payers[p := payers[p].(phase := if st.Open? || st.Invited? then Seen(st) else Rejected)];
    }

    method ClaimCall(i: nat, ghost p: nat, ghost st: ShareStatus, ghost ok: bool) returns (claimed: bool)
      requires Running(p) && payers[p].phase == Seen(st) && payers[p].share == i
      modifies this`shares, this`payers
      ensures Running(p) && Value() == Step(old(Value()), Go(p, ok))
      ensures claimed <==> old(shares)[i].status.Open? || old(shares)[i].status.Invited?
      ensures shares == if claimed then old(shares)[i := old(shares)[i].(status := PaymentPending)] else old(shares)
      ensures payers == old(payers)[p := old(payers)[p].(phase := if claimed then Claimed(st) else Rejected)]
    {
      claimed := ClaimForPayment(i);
      payers := payers[p := payers[p].(phase := if claimed then Claimed(st) else Rejected)];
    }

    /** The debit or the charge. */
    method CollectCall(i: nat, amount: int, funding: Funding, cardAccepted: bool, ghost p: nat, ghost st: ShareStatus)
        returns (paid: bool)
      requires Running(p) && payers[p] == Payer(i, amount, funding, Claimed(st))
      modifies this`payers, this`collected, this`cards, wallet
      ensures Running(p) && Value() == Step(old(Value()), Go(p, cardAccepted))
      ensures payers == old(payers)[p := old(payers)[p].(phase := if paid then Collected else Refused(st))]
      ensures funding.Wallet? ==>
                && paid == (Apply(old(wallet.Value()), Op.DebitForBooking(funding.wallet, booking, amount)).1 == Done)
                && wallet.Value() == Apply(old(wallet.Value()), Op.DebitForBooking(funding.wallet, booking, amount)).0
                && cards == old(cards)
      ensures funding.External? ==>
                && paid == cardAccepted && wallet.Value() == old(wallet.Value())
                && cards == if paid then old(cards) + amount else old(cards)
    {
      hide Apply;
      paid := cardAccepted;
      if funding.Wallet? {
        var w := wallet.DebitForBooking(funding.wallet, booking, amount);
        paid := w == Done;
        HoldsOnlyGrow(old(wallet.Value()), Op.DebitForBooking(funding.wallet, booking, amount));
      }
      if paid {
        collected := collected[i := collected[i] + 1];
        if funding.External? { cards := cards + amount; }
      }
      payers := payers[p := payers[p].(phase := if paid then Collected else Refused(st))];
    }

    method RollBackCall(i: nat, st: ShareStatus, ghost p: nat, ghost ok: bool)
      requires Running(p) && payers[p].phase == Refused(st) && payers[p].share == i
      modifies this`shares, this`payers
      ensures Running(p) && Value() == Step(old(Value()), Go(p, ok))
      ensures payers == old(payers)[p := old(payers)[p].(phase := Rejected)]
      ensures shares == old(shares)[i := old(shares)[i].(status := st)]
    {
      UpdateStatus(i, st);
      payers := payers[p := payers[p].(phase := Rejected)];
    }

    method MarkPaidCall(i: nat, ghost p: nat, ghost ok: bool) returns (marked: bool)
      requires Running(p) && payers[p].phase == Collected && payers[p].share == i
      modifies this`shares, this`payers
      ensures Running(p) && Value() == Step(old(Value()), Go(p, ok))
      ensures payers == old(payers)[p := old(payers)[p].(phase := if marked then Marked else DoublePayment)]
      ensures marked <==> !old(shares)[i].status.Paid? && !old(shares)[i].status.CoveredByOrganizer?
      ensures shares == if marked then old(shares)[i := old(shares)[i].(status := ShareStatus.Paid)] else old(shares)
    {
      marked := MarkPaidIfPayable(i);
      payers := payers[p := payers[p].(phase := if marked then Marked else DoublePayment)];
    }

    method ReadGuaranteeCall(ghost p: nat, ghost ok: bool) returns (live: bool)
      requires Running(p) && payers[p].phase == Marked
      modifies this`payers
      ensures Running(p) && Value() == Step(old(Value()), Go(p, ok))
      ensures payers == old(payers)[p := old(payers)[p].(phase := if live then GuaranteeSeen else Finished)]
      ensures live <==> !g.status.Released? && !g.status.Consumed?
    {
      live := !(g.status.Released? || g.status.Consumed?);
      payers := payers[p := payers[p].(phase := if live then GuaranteeSeen else Finished)];
    }

    method ReleaseAmountCall(amount: int, ghost p: nat, ghost ok: bool) returns (released: bool)
      requires Running(p) && payers[p].phase == GuaranteeSeen && payers[p].amount == amount
      modifies this`g, this`payers
      ensures Running(p) && Value() == Step(old(Value()), Go(p, ok)) && g.kind == old(g).kind
      ensures payers == old(payers)[p := old(payers)[p].(phase := if released then Decreased else Finished)]
      ensures released <==> (old(g).status.Active? || old(g).status.PartiallyReleased?) && old(g).remaining >= amount
      ensures g == if released then old(g).(remaining := old(g).remaining - amount) else old(g)
    {
      released := ReleaseAmount(amount);
      payers := payers[p := payers[p].(phase := if released then Decreased else Finished)];
    }

    method RereadCall(ghost p: nat, ghost ok: bool) returns (left: int)
      requires Running(p) && payers[p].phase == Decreased
      modifies this`payers
      ensures Running(p) && Value() == Step(old(Value()), Go(p, ok))
      ensures payers ==
              old(payers)[p := old(payers)[p].(phase := if g.kind.WalletReserve? then Reread(left) else HoldDone(left))]
      ensures left == g.remaining
    {
      left := g.remaining;
      payers := payers[p := payers[p].(phase := if g.kind.WalletReserve? then Reread(left) else HoldDone(left))];
    }

    method MarkGuaranteeCall(left: int, ghost p: nat, ghost ok: bool)
      requires Running(p) && payers[p].phase == HoldDone(left)
      modifies this`g, this`payers
      ensures Running(p) && Value() == Step(old(Value()), Go(p, ok))
      ensures payers == old(payers)[p := old(payers)[p].(phase := Finished)]
      ensures g == old(g).(status := if left == 0 then GuaranteeStatus.Released else PartiallyReleased)
    {
      g := g.(status := if left == 0 then GuaranteeStatus.Released else PartiallyReleased);
      payers := payers[p := payers[p].(phase := Finished)];
    }

    method ReadHoldCall(amount: int, ghost p: nat, ghost left: int, ghost ok: bool) returns (h: Hold)
      requires Running(p) && payers[p].phase == Reread(left) && payers[p].amount == amount && g.kind.WalletReserve?
      modifies this`payers
      ensures Running(p) && Value() == Step(old(Value()), Go(p, ok))
      ensures payers == old(payers)[p := old(payers)[p].(phase :=
                if !h.status.Active? then HoldDone(left) else if amount >= h.amount then Releasing(left)
                  else HoldSeen(left, h.amount))]
      ensures h == wallet.holds[g.kind.hold]
    {
      h := wallet.holds[g.kind.hold];
      payers := payers[p := payers[p].(phase :=
        if !h.status.Active? then HoldDone(left) else if amount >= h.amount then Releasing(left)
          else HoldSeen(left, h.amount))];
    }

    method ReduceHoldCall(amount: int, ghost p: nat, ghost left: int, ghost seen: int, ghost ok: bool)
      requires Running(p) && payers[p].phase == HoldSeen(left, seen) && payers[p].amount == amount
               && g.kind.WalletReserve?
      modifies this`payers, wallet
      ensures Running(p) && Value() == Step(old(Value()), Go(p, ok))
      ensures payers == old(payers)[p := old(payers)[p].(phase := HoldDone(left))]
      ensures var h := old(wallet.holds)[g.kind.hold];
              h.status.Active? && amount < h.amount ==>
                wallet.Value() == Apply(old(wallet.Value()), Op.ReleaseHoldPartially(g.kind.hold, amount)).0
    {
      var id := g.kind.hold;
      var h := wallet.holds[id];
      if h.status.Active? && h.amount >= amount {
        wallet.holds := wallet.holds[id := h.(amount := h.amount - amount)];
        wallet.rows := wallet.rows + [AuditRow(h, id, HoldReleased, amount)];
      }
      payers := payers[p := payers[p].(phase := HoldDone(left))];
    }

    /** `releaseHold`: its own read of the hold, then the conditional transition. */
    method ReleaseHoldCalls(ghost p: nat, ghost left: int, ghost ok: bool)
      requires Running(p) && payers[p].phase == Releasing(left) && g.kind.WalletReserve?
      modifies this`payers, wallet
      ensures Running(p) && ShapeOk(Step(old(Value()), Go(p, ok)))
      ensures Value() == Step(Step(old(Value()), Go(p, ok)), Go(p, ok))
      ensures payers == old(payers)[p := old(payers)[p].(phase := HoldDone(left))]
      ensures wallet.Value() == Apply(old(wallet.Value()), Op.ReleaseHold(g.kind.hold)).0
    {
      var id := g.kind.hold;
      var h := wallet.holds[id];
      payers := payers[p := payers[p].(phase := ReleaseSeen(left, h.amount))];
      assert Value() == Step(old(Value()), Go(p, ok));
      var moved := wallet.TransitionHold(id, HoldStatus.Released);
      if moved { wallet.rows := wallet.rows + [AuditRow(h, id, HoldReleased, h.amount)]; }
      payers := payers[p := payers[p].(phase := HoldDone(left))];
    }

    static lemma {:induction false} PartialReleaseCases(l: Ledger, h: nat, amount: int)
      requires h < |l.holds|
      ensures var t := Apply(l, Op.ReleaseHoldPartially(h, amount)).0;
              && (!l.holds[h].status.Active? ==> t == l)
              && (l.holds[h].status.Active? && amount >= l.holds[h].amount ==> t == Apply(l, Op.ReleaseHold(h)).0)
    {
    }

    /** `releaseHoldPartially` on the guarantee's hold. */
    method ReleaseHoldPartially(amount: int, ghost p: nat, ghost left: int, ghost s0: Split, ghost ok: bool,
        ghost n: nat) returns (ghost m: nat)
      requires Running(p) && payers[p].phase == Reread(left) && payers[p].amount == amount && g.kind.WalletReserve?
      requires Value() == Drive(s0, p, ok, n)
      modifies this`payers, wallet
      ensures Running(p) && Value() == Drive(s0, p, ok, m)
      ensures payers == old(payers)[p := old(payers)[p].(phase := HoldDone(left))]
      ensures wallet.Value() == Apply(old(wallet.Value()), Op.ReleaseHoldPartially(g.kind.hold, amount)).0
    {
      hide Step, Drive, Apply;
      ghost var s := Value();
      PartialReleaseCases(wallet.Value(), g.kind.hold, amount);
      Advance(s, s0, p, ok, n);
      var h := ReadHoldCall(amount, p, left, ok);
      m := n + 1;
      s := Value();
      if h.status.Active? {
        Advance(s, s0, p, ok, n + 1);
        if amount >= h.amount {
          ReleaseHoldCalls(p, left, ok);
          Advance(Step(s, Go(p, ok)), s0, p, ok, n + 2);
          m := n + 3;
        } else {
          ReduceHoldCall(amount, p, left, h.amount, ok);
          m := n + 2;
        }
      }
    }

    /**
     A live guarantee that has the amount left gives it up, and its hold too; it is RELEASED when nothing is left. Any
     other guarantee stays as it is.
     */
    ghost predicate TakesOff(before: Guarantee, l: Ledger, amount: int)
      reads this`g, wallet
    {
      if (before.status.Active? || before.status.PartiallyReleased?) && before.remaining >= amount then
        && g == before.(remaining := before.remaining - amount,
                        status := if before.remaining == amount then GuaranteeStatus.Released else PartiallyReleased)
        && wallet.Value() == if g.kind.CardOffSession? then l
                             else Apply(l, Op.ReleaseHoldPartially(g.kind.hold, amount)).0
      else g == before && wallet.Value() == l
    }

    /** A paid share takes its amount off the guarantee and then off the hold, in the steps of the protocol. */
    method ReleaseForPaidShare(amount: int, ghost p: nat, ghost s0: Split, ghost ok: bool, ghost n: nat)
        returns (ghost m: nat)
      requires Running(p) && payers[p].phase.Marked? && payers[p].amount == amount
      requires Value() == Drive(s0, p, ok, n)
      modifies this`g, this`payers, wallet
      ensures Running(p) && Value() == Drive(s0, p, ok, m)
      ensures payers == old(payers)[p := old(payers)[p].(phase := Finished)]
      ensures TakesOff(old(g), old(wallet.Value()), amount)
    {
      hide Step, Drive, ShapeOk, SplitBooking.Value, Apply, WalletService.Value;
      Advance(Value(), s0, p, ok, n);
      var live := ReadGuaranteeCall(p, ok);
      if !live { return n + 1; }
      Advance(Value(), s0, p, ok, n + 1);
      var released := ReleaseAmountCall(amount, p, ok);
      if !released { return n + 2; }
      Advance(Value(), s0, p, ok, n + 2);
      var left := RereadCall(p, ok);
      m := n + 3;
      if g.kind.WalletReserve? { m := ReleaseHoldPartially(amount, p, left, s0, ok, n + 3); }
      Advance(Value(), s0, p, ok, m);
      MarkGuaranteeCall(left, p, ok);
      m := m + 1;
    }

    static lemma {:induction false} LastStatusStays(shares: seq<SplitProtocol.Share>, i: nat)
      requires i < |shares|
      ensures var claimed := shares[i := shares[i].(status := PaymentPending)];
              && claimed[i := claimed[i].(status := shares[i].status)] == shares
              && claimed[i := claimed[i].(status := ShareStatus.Paid)]
                 == shares[i := shares[i].(status := ShareStatus.Paid)]
    {
    }

    static lemma {:induction false} DebitDecides(l: Ledger, w: nat, booking: nat, amount: int)
      requires WalletInv(l) && amount >= 0
      ensures var (t, r) := Apply(l, Op.DebitForBooking(w, booking, amount));
              (r == Done <==> amount <= Available(l, w)) && (r != Done ==> t == l)
    {
      hide WalletInv, Debit, Available;
      DebitSpends(l, Purpose(w, DebitBooking, Some(booking), None, None), amount);
    }

    /** A wallet pays exactly when its available balance covers the amount. */
    static predicate CanPay(amount: int, funding: Funding, cardAccepted: bool, l: Ledger) {
      if funding.Wallet? then amount <= Available(l, funding.wallet) else cardAccepted
    }

    static function AnswerOf(st: ShareStatus, amount: int, funding: Funding, cardAccepted: bool, l: Ledger): PayResult {
      if st.Paid? then AlreadyPaid
      else if st.PaymentPending? || st.CoveredByOrganizer? then NotPayable
      else if CanPay(amount, funding, cardAccepted, l) then PaidShare else PaymentRefused
    }

    /** The wallets after the payment: the payer's has spent the amount on this booking. */
    ghost function Taken(l: Ledger, funding: Funding, amount: int): Ledger {
      if funding.Wallet? then Apply(l, Op.DebitForBooking(funding.wallet, booking, amount)).0 else l
    }

    /** From a successful claim on. */
    method PayClaimed(i: nat, st: ShareStatus, amount: int, funding: Funding, cardAccepted: bool, ghost p: nat,
        ghost s0: Split)
      returns (r: PayResult)
      requires Running(p) && payers[p] == Payer(i, amount, funding, Claimed(st))
               && Value() == Drive(s0, p, cardAccepted, 2)
      requires WalletInv(wallet.Value()) && amount >= 0 && i < |shares| && shares[i].status.PaymentPending?
      modifies this, wallet
      ensures exists n: nat :: Value() == Drive(s0, p, cardAccepted, n)
      ensures |payers| == |old(payers)| && !InFlight(payers[p].phase) && Ends(r, payers[p].phase)
      ensures r == if CanPay(amount, funding, cardAccepted, old(wallet.Value())) then PaidShare else PaymentRefused
      ensures if r.PaidShare? then
                && shares == old(shares)[i := old(shares)[i].(status := ShareStatus.Paid)]
                && cards == (if funding.External? then old(cards) + amount else old(cards))
                && TakesOff(old(g), Taken(old(wallet.Value()), funding, amount), amount)
              else
                && shares == old(shares)[i := old(shares)[i].(status := st)] && cards == old(cards) && g == old(g)
                && wallet.Value() == old(wallet.Value())
    {
      hide Step, Drive, ShapeOk, SplitBooking.Value, Apply, Available, WalletInv, WalletService.Value, TakesOff;
      if funding.Wallet? { DebitDecides(wallet.Value(), funding.wallet, booking, amount); }
      Advance(Value(), s0, p, cardAccepted, 2);
      var paid := CollectCall(i, amount, funding, cardAccepted, p, st);
      Advance(Value(), s0, p, cardAccepted, 3);
      if !paid {
        RollBackCall(i, st, p, cardAccepted);
        return PaymentRefused;
      }
      var marked := MarkPaidCall(i, p, cardAccepted);
      if !marked { return ChargedForNothing; }
      ghost var m := ReleaseForPaidShare(amount, p, s0, cardAccepted, 4);
      r := PaidShare;
    }

    /** The calls of payer `p`, who has just arrived with nobody in between. */
    method PayAs(i: nat, amount: int, funding: Funding, cardAccepted: bool, ghost p: nat, ghost s0: Split)
      returns (r: PayResult)
      requires Running(p) && payers[p] == Payer(i, amount, funding, Start) && Value() == Drive(s0, p, cardAccepted, 0)
      requires WalletInv(wallet.Value()) && amount >= 0 && i < |shares|
      modifies this, wallet
      ensures exists n: nat :: Value() == Drive(s0, p, cardAccepted, n)
      ensures |payers| == |old(payers)| && !InFlight(payers[p].phase) && Ends(r, payers[p].phase)
      ensures r == AnswerOf(old(shares)[i].status, amount, funding, cardAccepted, old(wallet.Value()))
      ensures if r.PaidShare? then
                && shares == old(shares)[i := old(shares)[i].(status := ShareStatus.Paid)]
                && cards == (if funding.External? then old(cards) + amount else old(cards))
                && TakesOff(old(g), Taken(old(wallet.Value()), funding, amount), amount)
              else
                shares == old(shares) && cards == old(cards) && g == old(g) && wallet.Value() == old(wallet.Value())
    {
      hide Step, Drive, ShapeOk, SplitBooking.Value, Apply, Available, WalletInv, WalletService.Value, TakesOff, CanPay;
      LastStatusStays(shares, i);
      Advance(Value(), s0, p, cardAccepted, 0);
      var st := ReadShareCall(i, p, cardAccepted);
      if !(st.Open? || st.Invited?) {
        return if st.Paid? then AlreadyPaid else NotPayable;
      }
      Advance(Value(), s0, p, cardAccepted, 1);
      var claimed := ClaimCall(i, p, st, cardAccepted);
      if !claimed { return AlreadyPaid; }
      r := PayClaimed(i, st, amount, funding, cardAccepted, p, s0);
    }

    /**
     One uninterrupted `payShare` call is a sequence of protocol steps of one new payer, ending with that
     payer out of flight. It answers by the share's status and by what the wallet or the card can pay; a payment takes
     the whole share from the payer, marks it PAID and gives as much of the guarantee back; any other answer leaves
     shares, guarantee and money as they were.
     */
    method PayShare(i: nat, funding: Funding, cardAccepted: bool) returns (r: PayResult)
      requires ShapeOk(Value()) && WalletInv(wallet.Value())
      requires forall x :: x in shares ==> x.total >= 0
      modifies this, wallet
      ensures r.ShareNotFound? <==> i >= |old(shares)|
      ensures r.ShareNotFound? ==> Value() == old(Value())
      ensures !r.ShareNotFound? ==>
                var p := |old(payers)|;
                var arrived := Step(old(Value()), Arrive(i, funding));
                && |payers| == p + 1 && !InFlight(payers[p].phase) && Ends(r, payers[p].phase)
                && exists n: nat :: Value() == Drive(arrived, p, cardAccepted, n)
      ensures !r.ShareNotFound? ==>
                var share, l := old(shares)[i], old(wallet.Value());
                && r == (if share.status.Paid? then AlreadyPaid
                         else if share.status.PaymentPending? || share.status.CoveredByOrganizer? then NotPayable
                         else if funding.Wallet? && share.total > Available(l, funding.wallet) then PaymentRefused
                         else if funding.External? && !cardAccepted then PaymentRefused else PaidShare)
                && (if r.PaidShare? then
                      && shares == old(shares)[i := share.(status := ShareStatus.Paid)]
                      && cards == (if funding.External? then old(cards) + share.total else old(cards))
                      && TakesOff(old(g), if funding.External? then l
                           else Apply(l, Op.DebitForBooking(funding.wallet, booking, share.total)).0, share.total)
                    else
                      && shares == old(shares) && cards == old(cards) && g == old(g) && wallet.Value() == l)
    {
      if i >= |shares| { return ShareNotFound; }
      ghost var p := |payers|;
      ghost var s0 := Step(Value(), Arrive(i, funding));
      var amount := shares[i].total;
      payers := payers + [Payer(i, amount, funding, Start)];
      assert Value() == s0 == Drive(s0, p, cardAccepted, 0);
      r := PayAs(i, amount, funding, cardAccepted, p, s0);
    }
  }
}
