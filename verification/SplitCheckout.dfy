/**
 The SPLIT checkout: organiser's authorisation, guarantee, Legacy, capture, shares. When it confirms, the
 booking it leaves is a starting state of SplitProtocol, so every theorem about runs applies to it.
 */
module SplitCheckouts {
  import opened Common
  import opened WalletLedger
  import opened WalletProofs
  import opened BookingCharges
  import opened WalletServices
  import opened Bookings
  import SP = SplitProtocol
  import opened SplitCalculator

  datatype GuaranteeChoice = OnWallet(wallet: nat) | OnCard

  datatype Outcome =
    | BookingConfirmed | NotPending | BadParticipants | CardFailed | GuaranteeRefused | LegacyRefused | NeedsReview

  /** A row for everybody over its part: the organiser's paid, the others' invited where there is an address. */
  predicate Opened(shares: seq<SP.Share>, parts: seq<SplitShare>, invited: seq<bool>)
    requires |parts| == |invited| + 1
  {
    && |shares| == |parts| && shares[0].status.Paid?
    && (forall i :: 0 <= i < |parts| ==> shares[i].total == parts[i].Total)
    && forall i :: 1 <= i < |parts| ==> shares[i].status == if invited[i - 1] then SP.Invited else SP.ShareStatus.Open
  }

  lemma {:induction false} PriceOfShares(parts: seq<SplitShare>, shares: seq<SP.Share>)
    requires |parts| == |shares| && forall i :: 0 <= i < |parts| ==> shares[i].total == parts[i].Total
    ensures SP.PriceOf(shares) == SumInts(ShareTotals(parts))
  {
    if parts != [] {
      var n := |parts| - 1;
      PriceOfShares(parts[..n], shares[..n]);
      assert ShareTotals(parts)[..n] == ShareTotals(parts[..n]);
    }
  }

  lemma {:induction false} SumNonNegative(xs: seq<int>)
    requires forall i :: 0 <= i < |xs| ==> xs[i] >= 0
    ensures SumInts(xs) >= 0
  {
    if xs != [] { SumNonNegative(xs[..|xs| - 1]); }
  }

  /** The parts of a party: one each, none negative, price plus fee in all. */
  lemma {:induction false} PartsAreSound(basePrice: int, count: int, serviceFee: int, allocation: Allocation)
    requires count > 0 && basePrice >= 0 && serviceFee >= 0
    ensures var parts := ComputeSplitShares(basePrice, count, serviceFee, allocation);
            && parts.Some? && |parts.value| == count && (forall p :: p in parts.value ==> p.base >= 0 && p.fee >= 0)
            && parts.value[0].Total + GuaranteedCents(parts.value) == SumInts(ShareTotals(parts.value)) == basePrice
              + serviceFee
            && GuaranteedCents(parts.value) >= 0
  {
    hide SumInts;
    SharesAddUp(basePrice, count, serviceFee, allocation);
    SharesAreNonNegative(basePrice, count, serviceFee, allocation);
    SumNonNegative(ShareTotals(ComputeSplitShares(basePrice, count, serviceFee, allocation).value[1..]));
  }

  /** Freeing a hold leaves every other hold and a sound wallet. */
  lemma {:induction false} FreeingKeepsTheRest(l: Ledger, h: nat)
    requires WalletInv(l) && h < |l.holds| && l.holds[h].status.Active?
    ensures var freed := Apply(l, Op.ReleaseHold(h)).0;
            WalletInv(freed) && freed.holds == l.holds[h := l.holds[h].(status := HoldStatus.Released)]
  {
    hide WalletInv;
    ApplyKeepsInv(l, Op.ReleaseHold(h));
  }

  class SplitCheckoutService {
    const booking: nat
    const wallet: WalletService
    const basePrice: int
    const serviceFee: int
    const allocation: Allocation
    var status: BookingStatus
    var payment: Option<PaymentRow>
    var guarantee: Option<SP.Guarantee>
    var shares: seq<SP.Share>

    constructor (booking: nat, wallet: WalletService, basePrice: int, serviceFee: int, allocation: Allocation)
      ensures this.booking == booking && this.wallet == wallet && this.basePrice == basePrice
      ensures this.serviceFee == serviceFee && this.allocation == allocation
      ensures status == CheckoutPending && payment == None && guarantee == None && shares == []
    {
      this.booking, this.wallet, this.basePrice, this.serviceFee, this.allocation := booking, wallet, basePrice,
        serviceFee, allocation;
      status, payment, guarantee, shares := CheckoutPending, None, None, [];
    }

    /** The protocol state of the booking; the organiser's share counts as collected once. */
    ghost function ProtocolState(): SP.Split
      requires guarantee.Some?
      reads this, wallet
    {
      SP.Split(booking, wallet.Value(), shares, guarantee.value, [], seq(|shares|, i => if i == 0 then 1 else 0),
               if payment.Some? && payment.value.status.Succeeded? then payment.value.amount else 0)
    }

    /** Rows for everybody, the organiser's already paid, then one invitation per participant with an address. */
    method CreateSharesAndInvite(parts: seq<SplitShare>, invited: seq<bool>)
      requires |parts| == |invited| + 1
      modifies this`shares
      ensures Opened(shares, parts, invited)
    {
      shares := seq(|parts|, i requires 0 <= i < |parts| =>
        SP.Share(parts[i].Total, if i == 0 then SP.ShareStatus.Paid else SP.ShareStatus.Open));
      for k := 0 to |invited|
        invariant |shares| == |parts|
        invariant forall i :: 0 <= i < |parts| ==> shares[i].total == parts[i].Total
        invariant shares[0].status.Paid?
        invariant forall i :: 1 <= i <= k ==>
            shares[i].status == if invited[i - 1] then SP.Invited else SP.ShareStatus.Open
        invariant forall i :: k < i < |parts| ==> shares[i].status.Open?
      {
        if invited[k] { shares := shares[k + 1 := shares[k + 1].(status := SP.Invited)]; }
      }
    }

    /** Step 2: the guarantee, on the organiser's wallet or on the card. */
    method CreateGuarantee(choice: GuaranteeChoice, amount: int) returns (ok: bool)
      requires WalletInv(wallet.Value()) && amount >= 0
      modifies this`guarantee, wallet
      ensures WalletInv(wallet.Value())
      ensures ok <==> choice.OnCard? || amount <= Available(old(wallet.Value()), choice.wallet)
      ensures !ok ==> guarantee == old(guarantee) && wallet.Value() == old(wallet.Value())
      ensures ok ==>
              guarantee.Some? && guarantee.value.status.Active? && guarantee.value.remaining == amount
              && guarantee.value.captured == 0
      ensures ok && choice.OnCard? ==> guarantee.value.kind.CardOffSession? && wallet.Value() == old(wallet.Value())
      ensures ok && choice.OnWallet? ==>
                && guarantee.value.kind == SP.WalletReserve(|old(wallet.holds)|)
                && wallet.Value() == Leg(old(wallet.Value()), choice.wallet, booking, amount, HoldStatus.Active)
                && wallet.holds == old(wallet.holds) + [Hold(choice.wallet, booking, amount, HoldStatus.Active)]
    {
      hide WalletInv, Sum, Reserved;
      if choice.OnWallet? {
        ApplyKeepsInv(wallet.Value(), Op.CreateHold(choice.wallet, booking, amount));
        var r, id := wallet.CreateHold(choice.wallet, booking, amount);
        if r != Done { return false; }
        guarantee := Some(SP.Guarantee(SP.WalletReserve(id), SP.GuaranteeStatus.Active, amount, 0));
      } else {
        guarantee := Some(SP.Guarantee(SP.CardOffSession, SP.GuaranteeStatus.Active, amount, 0));
      }
      ok := true;
    }

    /**
     `releaseEntirely`: a missing or finished guarantee is left alone, any other ends RELEASED with its hold freed.
     */
    method ReleaseEntirely()
      modifies this`guarantee, wallet
      ensures guarantee.Some? <==> old(guarantee).Some?
      ensures old(guarantee).Some? ==>
                var q := old(guarantee).value;
                var finished := q.status.Released? || q.status.Consumed?;
                && guarantee.value ==
                  (if finished then q else q.(status := SP.GuaranteeStatus.Released, remaining := 0))
                && wallet.Value() == (if finished || q.kind.CardOffSession? then old(wallet.Value())
                                      else Apply(old(wallet.Value()), Op.ReleaseHold(q.kind.hold)).0)
      ensures old(guarantee) == None ==> wallet.Value() == old(wallet.Value())
    {
      if guarantee == None || guarantee.value.status.Released? || guarantee.value.status.Consumed? { return; }
      var q := guarantee.value;
      if q.kind.WalletReserve? { var _ := wallet.ReleaseHold(q.kind.hold); }
      guarantee := Some(q.(status := SP.GuaranteeStatus.Released, remaining := 0));
    }

    /** Steps 4 and 5, once the organiser's share is captured. */
    method Confirm(parts: seq<SplitShare>, invited: seq<bool>)
      requires WalletInv(wallet.Value()) && |parts| == |invited| + 1
      requires forall p :: p in parts ==> p.base >= 0 && p.fee >= 0
      requires parts[0].Total + GuaranteedCents(parts) == SumInts(ShareTotals(parts))
      requires guarantee.Some? && guarantee.value.status.Active? && guarantee.value.captured == 0
               && guarantee.value.remaining == GuaranteedCents(parts)
      requires guarantee.value.kind.WalletReserve? ==>
                 && guarantee.value.kind.hold < |wallet.holds|
                 && wallet.holds[guarantee.value.kind.hold].status.Active?
                 && wallet.holds[guarantee.value.kind.hold].amount == guarantee.value.remaining
                 && wallet.holds[guarantee.value.kind.hold].booking == booking
      modifies this`status, this`payment, this`shares
      ensures status.Confirmed? && shares != [] && SP.Confirmed(ProtocolState())
      ensures Opened(shares, parts, invited)
      ensures payment == Some(PaymentRow(shares[0].total, Succeeded))
              && SP.PriceOf(shares) == SumInts(ShareTotals(parts))
    {
      hide WalletInv, SP.PriceOf, SumInts, GuaranteedCents;
      payment := Some(PaymentRow(parts[0].Total, Succeeded));
      status := BookingStatus.Confirmed;
      CreateSharesAndInvite(parts, invited);
      PriceOfShares(parts, shares);
    }

    /** The guarantee as it is created: ACTIVE over `amount`, on a wallet with a fresh hold of that amount. */
    ghost predicate Secured(choice: GuaranteeChoice, amount: int, before: Ledger)
      reads this, wallet
    {
      match choice
      case OnCard =>
        && guarantee == Some(SP.Guarantee(SP.CardOffSession, SP.GuaranteeStatus.Active, amount, 0))
        && wallet.Value() == before
      case OnWallet(w) =>
        && guarantee == Some(SP.Guarantee(SP.WalletReserve(|before.holds|), SP.GuaranteeStatus.Active, amount, 0))
        && wallet.Value() == Leg(before, w, booking, amount, HoldStatus.Active)
    }

    /** The guarantee as it is given up: RELEASED with nothing remaining, its hold released too. */
    ghost predicate GivenUp(choice: GuaranteeChoice, amount: int, before: Ledger)
      reads this, wallet
    {
      match choice
      case OnCard =>
        && guarantee == Some(SP.Guarantee(SP.CardOffSession, SP.GuaranteeStatus.Released, 0, 0))
        && wallet.Value() == before
      case OnWallet(w) =>
        && guarantee == Some(SP.Guarantee(SP.WalletReserve(|before.holds|), SP.GuaranteeStatus.Released, 0, 0))
        && wallet.Value() == Leg(before, w, booking, amount, HoldStatus.Released)
    }

    /** Confirmed: the organiser's share captured, everybody's share open, a starting state of the share protocol. */
    ghost predicate Started(parts: seq<SplitShare>, invited: seq<bool>)
      requires |parts| == |invited| + 1
      reads this, wallet
    {
      && status.Confirmed? && payment == Some(PaymentRow(parts[0].Total, Succeeded))
      && Opened(shares, parts, invited) && guarantee.Some? && SP.Confirmed(ProtocolState())
      && SP.PriceOf(shares) == SumInts(ShareTotals(parts))
    }

    /** From an authorised organiser's share on: guarantee, Legacy, capture, confirmation. */
    method GuaranteeAndConfirm(parts: seq<SplitShare>, invited: seq<bool>, choice: GuaranteeChoice,
                               legacy: LegacyAnswer, captureSucceeds: bool)
      returns (r: Outcome)
      requires WalletInv(wallet.Value()) && |parts| == |invited| + 1
      requires forall p :: p in parts ==> p.base >= 0 && p.fee >= 0
      requires parts[0].Total + GuaranteedCents(parts) == SumInts(ShareTotals(parts)) && GuaranteedCents(parts) >= 0
      requires status.PaymentPending? && payment == Some(PaymentRow(parts[0].Total, Authorized)) && guarantee == None
               && shares == []
      modifies this, wallet
      ensures WalletInv(wallet.Value())
      ensures r == if choice.OnWallet? && GuaranteedCents(parts) > Available(old(wallet.Value()), choice.wallet)
                   then GuaranteeRefused
                   else if legacy.SlotUnavailable? then LegacyRefused
                   else if legacy.Ambiguous? || !captureSucceeds then NeedsReview else BookingConfirmed
      ensures r == GuaranteeRefused ==>
                && status.PaymentPending? && payment == old(payment) && guarantee == None && shares == []
                && wallet.Value() == old(wallet.Value())
      ensures r == LegacyRefused ==>
                && status.Failed? && payment == Some(PaymentRow(parts[0].Total, Canceled)) && shares == []
                && GivenUp(choice, GuaranteedCents(parts), old(wallet.Value()))
      ensures r == NeedsReview ==>
                && status.ManualReview? && shares == [] && Secured(choice, GuaranteedCents(parts), old(wallet.Value()))
                && payment == Some(PaymentRow(parts[0].Total, if legacy.Ambiguous? then Authorized else PaymentFailed))
      ensures r == BookingConfirmed ==>
                Started(parts, invited) && Secured(choice, GuaranteedCents(parts), old(wallet.Value()))
    {
      hide WalletInv, Sum, Reserved, SP.PriceOf, SumInts, GuaranteedCents, Available, Apply, SP.Confirmed;
      var ok := CreateGuarantee(choice, GuaranteedCents(parts));
      if !ok { return GuaranteeRefused; }
      if legacy.SlotUnavailable? {
        payment := Some(PaymentRow(parts[0].Total, Canceled));
        if guarantee.value.kind.WalletReserve? { FreeingKeepsTheRest(wallet.Value(), guarantee.value.kind.hold); }
        ReleaseEntirely();
        status := BookingStatus.Failed;
        return LegacyRefused;
      }
      if legacy.Ambiguous? {
        status := ManualReview;
        return NeedsReview;
      }
      if !captureSucceeds {
        payment := Some(PaymentRow(parts[0].Total, PaymentFailed));
        status := ManualReview;
        return NeedsReview;
      }
      Confirm(parts, invited);
      r := BookingConfirmed;
    }

    /** The shares of a checkout of `participants` people. */
    ghost function Parts(participants: nat): (parts: seq<SplitShare>)
      requires participants >= 1
      ensures |parts| == participants
    {
      SharesAddUp(basePrice, participants, serviceFee, allocation);
      ComputeSplitShares(basePrice, participants, serviceFee, allocation).value
    }

    /**
     The whole checkout: which answer each case gets, in order, and everything it leaves behind. Nothing is kept of a
     checkout that is refused before or by Legacy; an uncertain Legacy or a failed capture keeps the authorisation (or
     its failure) and the whole guarantee for an administrator; a wallet that cannot reserve stops it half-way, with the
     organiser's share authorised; CONFIRMED leaves a starting state of the share protocol at price plus fee.
     */
    method Checkout(invited: seq<bool>, capacity: nat, choice: GuaranteeChoice, card: CardAnswer, legacy: LegacyAnswer,
                    captureSucceeds: bool)
      returns (r: Outcome)
      requires WalletInv(wallet.Value()) && basePrice >= 0 && serviceFee >= 0
      requires status.CheckoutPending? ==> payment == None && guarantee == None && shares == []
      modifies this, wallet
      ensures WalletInv(wallet.Value())
      ensures var parts := Parts(|invited| + 1);
              r == if !old(status).CheckoutPending? then NotPending
                   else if !(1 <= |invited| < capacity) then BadParticipants
                   else if !(card.Capturable? || card.CanceledByProvider?) then CardFailed
                   else if choice.OnWallet? && GuaranteedCents(parts) > Available(old(wallet.Value()), choice.wallet)
                   then GuaranteeRefused
                   else if legacy.SlotUnavailable? then LegacyRefused
                   else if legacy.Ambiguous? || !captureSucceeds then NeedsReview else BookingConfirmed
      ensures r == NotPending ==>
                && status == old(status) && payment == old(payment) && guarantee == old(guarantee)
                && shares == old(shares) && wallet.Value() == old(wallet.Value())
      ensures r == BadParticipants || r == CardFailed ==>
                && status.CheckoutPending? && payment == None && guarantee == None && shares == []
                && wallet.Value() == old(wallet.Value())
      ensures var organizer := Parts(|invited| + 1)[0].Total;
              var amount := GuaranteedCents(Parts(|invited| + 1));
              && (r == GuaranteeRefused ==>
                    && status.PaymentPending? && payment == Some(PaymentRow(organizer, Authorized))
                    && guarantee == None && shares == [] && wallet.Value() == old(wallet.Value()))
              && (r == LegacyRefused ==>
                    && status.Failed? && payment == Some(PaymentRow(organizer, Canceled)) && shares == []
                    && GivenUp(choice, amount, old(wallet.Value())))
              && (r == NeedsReview ==>
                    && status.ManualReview? && shares == [] && Secured(choice, amount, old(wallet.Value()))
                    && payment == Some(PaymentRow(organizer, if legacy.Ambiguous? then Authorized else PaymentFailed)))
              && (r == BookingConfirmed ==>
                    && Started(Parts(|invited| + 1), invited) && Secured(choice, amount, old(wallet.Value()))
                    && SP.PriceOf(shares) == basePrice + serviceFee && |shares| == |invited| + 1
                    && shares[0].status.Paid? && forall k :: 0 <= k < |invited| ==>
                         shares[k + 1].status == if invited[k] then SP.Invited else SP.ShareStatus.Open)
    {
      hide WalletInv, Sum, Reserved, SP.PriceOf, SumInts, Available, GuaranteedCents, SP.Confirmed, ComputeSplitShares,
        ShareTotals;
      if !status.CheckoutPending? { return NotPending; }
      status := PaymentPending;
      var participantCount := |invited| + 1;
      if participantCount < 2 || participantCount > capacity {
        status := CheckoutPending;
        return BadParticipants;
      }
      PartsAreSound(basePrice, participantCount, serviceFee, allocation);
      var parts := ComputeSplitShares(basePrice, participantCount, serviceFee, allocation).value;
      if card.Throws? || card.Refused? || card.NeedsAction? {
        status := CheckoutPending;
        return CardFailed;
      }
      payment := Some(PaymentRow(parts[0].Total, Authorized));
      r := GuaranteeAndConfirm(parts, invited, choice, legacy, captureSucceeds);
    }
  }
}
