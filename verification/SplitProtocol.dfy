/**
 Any number of payers racing on the shares of one confirmed SPLIT booking, interleaved at the
 grain of one repository call, over the real wallet ledger. A conditional update and the audit
 row it writes are one step; a disabled event leaves the state unchanged.
 */
module SplitProtocol {
  import opened Common
  import opened WalletLedger
  import opened WalletProofs

  datatype ShareStatus = Open | Invited | PaymentPending | Paid | CoveredByOrganizer

  datatype Share = Share(total: int, status: ShareStatus)

  datatype GuaranteeKind = WalletReserve(hold: nat) | CardOffSession

  datatype GuaranteeStatus = Active | PartiallyReleased | Released | Consumed | Failed

  datatype Guarantee = Guarantee(kind: GuaranteeKind, status: GuaranteeStatus, remaining: int, captured: int)

  /** Where one `payShare` call stands; each constructor is a point between two repository calls. */
  datatype Phase =
    | Start
    | Seen(status: ShareStatus)
    | Claimed(status: ShareStatus)
    | Refused(status: ShareStatus)
    | Collected
    | Marked
    | GuaranteeSeen
    | Decreased
    | Reread(left: int)
    | HoldSeen(left: int, amount: int)
    | Releasing(left: int)
    | ReleaseSeen(left: int, amount: int)
    | HoldDone(left: int)
    | Finished
    | Rejected
    | DoublePayment

  datatype Funding = Wallet(wallet: nat) | External

  datatype Payer = Payer(share: nat, amount: int, funding: Funding, phase: Phase)

  /** `collected` counts the collections of each share, `cards` is what cards have been charged for the booking. */
  datatype Split = Split(booking: nat, ledger: Ledger, shares: seq<Share>, g: Guarantee,
                         payers: seq<Payer>, collected: seq<nat>, cards: int)

  /**
   `Go` lets one payer make its next repository call; `cardAccepted` is the provider's answer when that call is a
   charge.
   */
  datatype Event =
    | Arrive(share: nat, funding: Funding)
    | Go(p: nat, cardAccepted: bool)
    | Settle(cardAccepted: bool)
    | OtherWalletOp(op: WalletLedger.Op)

  predicate Payable(st: ShareStatus) { st.Open? || st.Invited? || st.PaymentPending? }

  /** Between the claim and the return of `payShare`. */
  predicate InFlight(ph: Phase) {
    !(ph.Start? || ph.Seen? || ph.Finished? || ph.Rejected? || ph.DoublePayment?)
  }

  function Cover(shares: seq<Share>): seq<Share> {
    seq(|shares|, i requires 0 <= i < |shares| =>
      if Payable(shares[i].status) then shares[i].(status := CoveredByOrganizer) else shares[i])
  }

  function At(s: Split, p: nat, ph: Phase): Split
    requires p < |s.payers|
  {
    s.(payers := s.payers[p := s.payers[p].(phase := ph)])
  }

  function SetShare(s: Split, i: nat, st: ShareStatus): Split
    requires i < |s.shares|
  {
    s.(shares := s.shares[i := s.shares[i].(status := st)])
  }

  /** `captureRemaining` then `coverUnpaidSharesWithGuarantee`. */
  function SettleStep(s: Split, cardAccepted: bool): Split {
    if s.g.status.Released? || s.g.status.Consumed? || s.g.remaining == 0 then s.(shares := Cover(s.shares))
    else if s.g.kind.CardOffSession? && !cardAccepted then s.(g := s.g.(status := Failed))
    else
      var ledger := if s.g.kind.WalletReserve? then Apply(s.ledger, CaptureHold(s.g.kind.hold)).0 else s.ledger;
      s.(ledger := ledger, shares := Cover(s.shares),
         cards := s.cards + (if s.g.kind.CardOffSession? then s.g.remaining else 0),
         g := s.g.(status := Consumed, remaining := 0, captured := s.g.captured + s.g.remaining))
  }

  predicate TouchesHold(op: WalletLedger.Op, hold: nat) {
    match op
    case ReleaseHold(h) => h == hold
    case ReleaseHoldPartially(h, _) => h == hold
    case CaptureHold(h) => h == hold
    case _ => false
  }

  predicate ShapeOk(s: Split) {
    && |s.collected| == |s.shares|
    && (s.g.kind.WalletReserve? ==> s.g.kind.hold < |s.ledger.holds|)
    && forall p :: p in s.payers ==> p.share < |s.shares|
  }

  /** The next repository call of payer `p`. */
  function PayerStep(s: Split, p: nat, cardAccepted: bool): Split
    requires ShapeOk(s) && p < |s.payers|
  {
    var me := s.payers[p];
    var i := me.share;
    match me.phase
    case Start =>
      var st := s.shares[i].status;
      At(s, p, if st.Open? || st.Invited? then Seen(st) else Rejected)
    case Seen(st) => ClaimStep(s, p, st)
    case Claimed(st) => CollectStep(s, p, st, cardAccepted)
    case Refused(st) => At(SetShare(s, i, st), p, Rejected)
    case Collected =>
      if Payable(s.shares[i].status) then At(SetShare(s, i, ShareStatus.Paid), p, Marked) else At(s, p, DoublePayment)
    case Marked => At(s, p, if s.g.status.Released? || s.g.status.Consumed? then Finished else GuaranteeSeen)
    case GuaranteeSeen =>
      if (s.g.status.Active? || s.g.status.PartiallyReleased?) && s.g.remaining >= me.amount
      then At(s.(g := s.g.(remaining := s.g.remaining - me.amount)), p, Decreased)
      else At(s, p, Finished)
    case Decreased => At(s, p, if s.g.kind.WalletReserve? then Reread(s.g.remaining) else HoldDone(s.g.remaining))
    case Reread(left) => if s.g.kind.WalletReserve? then ReadHoldStep(s, p, left) else s
    case HoldSeen(left, _) =>
      if s.g.kind.WalletReserve?
        then At(s.(ledger := ReduceCas(s.ledger, s.g.kind.hold, me.amount)), p, HoldDone(left)) else s
    case Releasing(left) =>
      if s.g.kind.WalletReserve? then At(s, p, ReleaseSeen(left, s.ledger.holds[s.g.kind.hold].amount)) else s
    case ReleaseSeen(left, amount) =>
      if s.g.kind.WalletReserve? then At(s.(ledger := ReleaseCas(s.ledger, s.g.kind.hold, amount)), p, HoldDone(left))
        else s
    case HoldDone(left) =>
      At(s.(g := s.g.(status := if left == 0 then GuaranteeStatus.Released else PartiallyReleased)), p, Finished)
    case Finished => s
    case Rejected => s
    case DoublePayment => s
  }

  /** `claimForPayment`. */
  function ClaimStep(s: Split, p: nat, st: ShareStatus): Split
    requires ShapeOk(s) && p < |s.payers|
  {
    var i := s.payers[p].share;
    if s.shares[i].status.Open? || s.shares[i].status.Invited?
    then At(SetShare(s, i, PaymentPending), p, Claimed(st))
    else At(s, p, Rejected)
  }

  /** The wallet debit or the card charge. */
  function CollectStep(s: Split, p: nat, st: ShareStatus, cardAccepted: bool): Split
    requires ShapeOk(s) && p < |s.payers|
  {
    var me := s.payers[p];
    var ledger := if me.funding.Wallet?
      then Apply(s.ledger, DebitForBooking(me.funding.wallet, s.booking, me.amount)).0 else s.ledger;
    var paid := if me.funding.Wallet?
      then Apply(s.ledger, DebitForBooking(me.funding.wallet, s.booking, me.amount)).1 == Done else cardAccepted;
    var cards := if me.funding.Wallet? then s.cards else s.cards + me.amount;
    var collected := s.collected[me.share := s.collected[me.share] + 1];
    if paid
    then At(s.(ledger := ledger, collected := collected, cards := cards), p, Collected)
    else At(s.(ledger := ledger), p, Refused(st))
  }

  /** The read that opens `releaseHoldPartially` and the branch it takes. */
  function ReadHoldStep(s: Split, p: nat, left: int): Split
    requires ShapeOk(s) && p < |s.payers| && s.g.kind.WalletReserve?
  {
    var h := s.ledger.holds[s.g.kind.hold];
    At(s, p, if !h.status.Active? then HoldDone(left) else if s.payers[p].amount >= h.amount then Releasing(left)
      else HoldSeen(left, h.amount))
  }

  function Step(s: Split, e: Event): Split
    requires ShapeOk(s)
  {
    match e
    case Arrive(i, f) => if i < |s.shares| then s.(payers := s.payers + [Payer(i, s.shares[i].total, f, Start)]) else s
    case Settle(ok) => SettleStep(s, ok)
    case OtherWalletOp(op) => s.(ledger := Apply(s.ledger, op).0)
    case Go(p, ok) => if p < |s.payers| then PayerStep(s, p, ok) else s
  }

  // ---------------------------------------------------------------------
  // Sums over shares and payers
  // ---------------------------------------------------------------------

  datatype Group = Unpaid | PaidUp | Covered

  function GroupOf(st: ShareStatus): Group {
    match st case Paid => PaidUp case CoveredByOrganizer => Covered case _ => Unpaid
  }

  function ShareSum(shares: seq<Share>, g: Group): int {
    if shares == [] then 0
    else
      var x := shares[|shares| - 1];
      ShareSum(shares[..|shares| - 1], g) + (if GroupOf(x.status) == g then x.total else 0)
  }

  function PriceOf(shares: seq<Share>): int {
    if shares == [] then 0 else PriceOf(shares[..|shares| - 1]) + shares[|shares| - 1].total
  }

  datatype Debt = ToGuarantee | ToHold

  /** Paid, but not yet taken off the guarantee; or taken off the guarantee, but not yet off the hold. */
  predicate Owes(ph: Phase, d: Debt) {
    match d
    case ToGuarantee => ph.Marked? || ph.GuaranteeSeen?
    case ToHold => ph.Decreased? || ph.Reread? || ph.HoldSeen? || ph.Releasing? || ph.ReleaseSeen?
  }

  function Owed(payers: seq<Payer>, d: Debt): int {
    if payers == [] then 0
    else
      var x := payers[|payers| - 1];
      Owed(payers[..|payers| - 1], d) + (if Owes(x.phase, d) then x.amount else 0)
  }

  // ---------------------------------------------------------------------
  // The environment of the run theorems
  // ---------------------------------------------------------------------

  predicate HoldsClaim(ph: Phase) { ph.Claimed? || ph.Refused? || ph.Collected? }

  /** The card refuses the settlement: the guarantee becomes FAILED and nothing else changes. */
  predicate SettlementRefused(s: Split, ok: bool) {
    && s.g.kind.CardOffSession? && !ok
    && s.g.remaining != 0 && !s.g.status.Released? && !s.g.status.Consumed?
  }

  /** Nobody has a claim, and nothing that will still be captured is owed to the guarantee or to its hold. */
  predicate SettleSafe(s: Split) {
    && (forall p :: p in s.payers ==> !HoldsClaim(p.phase))
    && (s.g.remaining != 0 ==>
          Owed(s.payers, ToGuarantee) == 0 && (s.g.kind.WalletReserve? ==> Owed(s.payers, ToHold) == 0))
  }

  /** A FAILED guarantee refuses the decrement for a paid share. */
  predicate LosesDecrement(s: Split, e: Event) {
    && e.Go? && e.p < |s.payers| && s.payers[e.p].phase.GuaranteeSeen?
    && s.g.status.Failed? && s.payers[e.p].amount > 0
  }

  /**
   Settlement is refused or safe, no decrement meets a FAILED guarantee, and other wallet traffic has non-negative
   amounts and does not touch the guarantee's hold.
   */
  predicate Fair(s: Split, e: Event) {
    && (e.Settle? ==> SettlementRefused(s, e.cardAccepted) || SettleSafe(s))
    && !LosesDecrement(s, e)
    && (e.OtherWalletOp? ==> NonNegative(e.op) && (s.g.kind.WalletReserve? ==> !TouchesHold(e.op, s.g.kind.hold)))
  }

  lemma {:induction false} ShareSumUpdate(shares: seq<Share>, i: nat, x: Share, g: Group)
    requires i < |shares|
    ensures ShareSum(shares[i := x], g) == ShareSum(shares, g)
            - (if GroupOf(shares[i].status) == g then shares[i].total else 0) + (if GroupOf(x.status) == g then x.total
              else 0)
  {
    var n := |shares| - 1;
    if i == n {
      assert shares[i := x][..n] == shares[..n];
    } else {
      assert shares[i := x][..n] == shares[..n][i := x];
      ShareSumUpdate(shares[..n], i, x, g);
    }
  }

  lemma {:induction false} PriceUpdate(shares: seq<Share>, i: nat, x: Share)
    requires i < |shares| && x.total == shares[i].total
    ensures PriceOf(shares[i := x]) == PriceOf(shares)
  {
    var n := |shares| - 1;
    if i == n {
      assert shares[i := x][..n] == shares[..n];
    } else {
      assert shares[i := x][..n] == shares[..n][i := x];
      PriceUpdate(shares[..n], i, x);
    }
  }

  /** Every share is unpaid, paid or covered. */
  lemma {:induction false} GroupsPartition(shares: seq<Share>)
    ensures ShareSum(shares, Unpaid) + ShareSum(shares, PaidUp) + ShareSum(shares, Covered) == PriceOf(shares)
  {
    if shares != [] { GroupsPartition(shares[..|shares| - 1]); }
  }

  lemma {:induction false} CoverSums(shares: seq<Share>)
    ensures ShareSum(Cover(shares), Unpaid) == 0
    ensures ShareSum(Cover(shares), Covered) == ShareSum(shares, Covered) + ShareSum(shares, Unpaid)
    ensures ShareSum(Cover(shares), PaidUp) == ShareSum(shares, PaidUp)
    ensures PriceOf(Cover(shares)) == PriceOf(shares)
  {
    if shares != [] {
      var n := |shares| - 1;
      assert Cover(shares)[..n] == Cover(shares[..n]);
      CoverSums(shares[..n]);
    }
  }

  lemma {:induction false} OwedUpdate(payers: seq<Payer>, p: nat, x: Payer, d: Debt)
    requires p < |payers|
    ensures Owed(payers[p := x], d) == Owed(payers, d)
            - (if Owes(payers[p].phase, d) then payers[p].amount else 0) + (if Owes(x.phase, d) then x.amount else 0)
  {
    var n := |payers| - 1;
    if p == n {
      assert payers[p := x][..n] == payers[..n];
    } else {
      assert payers[p := x][..n] == payers[..n][p := x];
      OwedUpdate(payers[..n], p, x, d);
    }
  }

  lemma {:induction false} OwedNonNegative(payers: seq<Payer>, d: Debt)
    requires forall p :: p in payers ==> p.amount >= 0
    ensures Owed(payers, d) >= 0
  {
    if payers != [] { OwedNonNegative(payers[..|payers| - 1], d); }
  }

  lemma {:induction false} OwedCovers(payers: seq<Payer>, p: nat, d: Debt)
    requires forall x :: x in payers ==> x.amount >= 0
    requires p < |payers| && Owes(payers[p].phase, d)
    ensures payers[p].amount <= Owed(payers, d)
  {
    var n := |payers| - 1;
    OwedNonNegative(payers[..n], d);
    if p < n { OwedCovers(payers[..n], p, d); }
  }

  lemma {:induction false} OwedCoversTwo(payers: seq<Payer>, p: nat, q: nat, d: Debt)
    requires forall x :: x in payers ==> x.amount >= 0
    requires p < |payers| && q < |payers| && p != q && Owes(payers[p].phase, d) && Owes(payers[q].phase, d)
    ensures payers[p].amount + payers[q].amount <= Owed(payers, d)
  {
    var x := payers[p].(phase := Finished);
    OwedUpdate(payers, p, x, d);
    OwedCovers(payers[p := x], q, d);
  }

  lemma {:induction false} NobodyOwes(payers: seq<Payer>, d: Debt)
    requires forall x :: x in payers ==> !Owes(x.phase, d)
    ensures Owed(payers, d) == 0
  {
    if payers != [] {
      assert payers[|payers| - 1] in payers;
      NobodyOwes(payers[..|payers| - 1], d);
    }
  }

  // ---------------------------------------------------------------------
  // The invariant
  // ---------------------------------------------------------------------

  predicate PayerOk(s: Split, p: Payer) {
    && p.share < |s.shares| == |s.collected| && p.amount == s.shares[p.share].total >= 0
    && (p.phase.Seen? ==> p.phase.status.Open? || p.phase.status.Invited?)
    && (HoldsClaim(p.phase) ==> s.shares[p.share].status.PaymentPending?)
    && (p.phase.Claimed? || p.phase.Refused? ==>
      s.collected[p.share] == 0 && (p.phase.status.Open? || p.phase.status.Invited?))
    && (p.phase.Collected? ==> s.collected[p.share] == 1)
    && !p.phase.DoublePayment?
  }

  predicate ShareOk(s: Split, i: nat)
    requires i < |s.shares| == |s.collected|
  {
    && s.shares[i].total >= 0
    && s.collected[i] <= 1
    && (s.shares[i].status.Paid? ==> s.collected[i] == 1)
    && (s.shares[i].status.Open? || s.shares[i].status.Invited? || s.shares[i].status.CoveredByOrganizer? ==>
      s.collected[i] == 0)
    && (s.shares[i].status.PaymentPending? ==> HasHolder(s.payers, i))
  }

  predicate HasHolder(payers: seq<Payer>, i: nat) {
    exists p :: 0 <= p < |payers| && HoldsClaim(payers[p].phase) && payers[p].share == i
  }

  /** A share is claimed by at most one payer. */
  predicate Exclusive(payers: seq<Payer>) {
    forall p, q :: 0 <= p < q < |payers| && HoldsClaim(payers[p].phase) && HoldsClaim(payers[q].phase) ==>
      payers[p].share != payers[q].share
  }

  function HoldAmount(s: Split): int
    requires ShapeOk(s) && s.g.kind.WalletReserve?
  {
    ActiveAmount(s.ledger.holds[s.g.kind.hold])
  }

  /** What a payer read earlier about the guarantee and the hold is still an upper bound, or exact where it must be. */
  predicate ReadsOk(s: Split, p: Payer)
    requires ShapeOk(s)
  {
    && (p.phase.Reread? || p.phase.HoldSeen? || p.phase.Releasing? || p.phase.ReleaseSeen? || p.phase.HoldDone? ==>
      s.g.remaining <= p.phase.left)
    && (p.phase.Releasing? && s.g.kind.WalletReserve? ==> HoldAmount(s) == p.amount)
    && (p.phase.ReleaseSeen? && s.g.kind.WalletReserve? ==>
          HoldAmount(s) == p.amount && (s.ledger.holds[s.g.kind.hold].status.Active? ==> p.phase.amount == p.amount))
    && (s.g.kind.CardOffSession? ==>
      !p.phase.Reread? && !p.phase.HoldSeen? && !p.phase.Releasing? && !p.phase.ReleaseSeen?)
  }

  ghost predicate Clean(s: Split) {
    && WalletInv(s.ledger)
    && ShapeOk(s)
    && (forall p :: p in s.payers ==> PayerOk(s, p))
    && (forall i: nat :: i < |s.shares| ==> ShareOk(s, i))
    && Exclusive(s.payers)
  }

  /** The guarantee covers what is unpaid plus what is paid but not yet taken off. */
  predicate GuaranteeBalanced(s: Split) {
    && s.g.remaining == ShareSum(s.shares, Unpaid) + Owed(s.payers, ToGuarantee)
    && s.g.captured == ShareSum(s.shares, Covered)
    && (s.g.status.Released? || s.g.status.Consumed? ==> s.g.remaining == 0)
  }

  /** The hold lags behind the guarantee by what was taken off the guarantee and not yet off the hold. */
  predicate HoldBalanced(s: Split)
    requires ShapeOk(s)
  {
    s.g.kind.WalletReserve? ==> HoldAmount(s) == s.g.remaining + Owed(s.payers, ToHold)
  }

  predicate Balanced(s: Split)
    requires ShapeOk(s)
  {
    GuaranteeBalanced(s) && HoldBalanced(s)
  }

  ghost predicate Inv(s: Split) {
    && Clean(s)
    && Balanced(s) && forall p :: p in s.payers ==> ReadsOk(s, p)
  }

  // ---------------------------------------------------------------------
  // Preservation: claims and collections
  // ---------------------------------------------------------------------

  /** A payer moving between two points with the same claim. */
  lemma {:induction false} PhaseKeepsClean(s: Split, p: nat, ph: Phase)
    requires Clean(s) && p < |s.payers|
    requires PayerOk(s, s.payers[p].(phase := ph)) && HoldsClaim(ph) == HoldsClaim(s.payers[p].phase)
    ensures Clean(At(s, p, ph))
  {
    hide WalletInv;
    var s' := At(s, p, ph);
    forall x | x in s'.payers ensures PayerOk(s', x) {
      assert x == s'.payers[p] || x in s.payers;
      if x in s.payers { assert PayerOk(s, x); } else { assert PayerOk(s, s.payers[p].(phase := ph)); }
    }
    forall i: nat | i < |s'.shares| ensures ShareOk(s', i) {
      assert ShareOk(s, i);
      if s.shares[i].status.PaymentPending? {
        var q :| 0 <= q < |s.payers| && HoldsClaim(s.payers[q].phase) && s.payers[q].share == i;
        assert HoldsClaim(s'.payers[q].phase) && s'.payers[q].share == i;
      }
    }
  }

  predicate ClaimPhaseOk(ph: Phase, count: nat) {
    && (ph.Claimed? || ph.Refused? ==> count == 0 && (ph.status.Open? || ph.status.Invited?))
    && (ph.Seen? ==> ph.status.Open? || ph.status.Invited?)
    && (ph.Collected? ==> count == 1)
    && !ph.DoublePayment?
  }

  /** A payer taking, settling or giving back its claim on one share, with the share's new status and count. */
  lemma {:induction false} ClaimKeepsPayer(s: Split, p: nat, ph: Phase, st: ShareStatus, count: nat, q: nat)
    requires Clean(s) && p < |s.payers| && q < |s.payers|
    requires HoldsClaim(s.payers[p].phase) || !s.shares[s.payers[p].share].status.PaymentPending?
    requires HoldsClaim(ph) <==> st.PaymentPending?
    requires ClaimPhaseOk(ph, count)
    requires forall r :: 0 <= r < |s.payers| && r != p && HoldsClaim(s.payers[r].phase) ==>
               s.payers[r].share != s.payers[p].share
    ensures var i := s.payers[p].share;
            var s' := SetShare(At(s, p, ph), i, st).(collected := s.collected[i := count]);
            PayerOk(s', s'.payers[q])
  {
    hide WalletInv, ShareOk, Exclusive;
    assert PayerOk(s, s.payers[q]);
  }

  lemma {:induction false} ClaimKeepsShare(s: Split, p: nat, ph: Phase, st: ShareStatus, count: nat, k: nat)
    requires Clean(s) && p < |s.payers| && k < |s.shares|
    requires HoldsClaim(ph) <==> st.PaymentPending?
    requires count <= 1 && (st.Paid? ==> count == 1)
    requires st.Open? || st.Invited? || st.CoveredByOrganizer? ==> count == 0
    ensures var i := s.payers[p].share;
            ShareOk(SetShare(At(s, p, ph), i, st).(collected := s.collected[i := count]), k)
  {
    hide WalletInv, PayerOk, Exclusive;
    var i := s.payers[p].share;
    var s' := SetShare(At(s, p, ph), i, st).(collected := s.collected[i := count]);
    assert ShareOk(s, k);
    if k == i {
      if st.PaymentPending? { assert HoldsClaim(s'.payers[p].phase) && s'.payers[p].share == i; }
    } else if s.shares[k].status.PaymentPending? {
      var q :| 0 <= q < |s.payers| && HoldsClaim(s.payers[q].phase) && s.payers[q].share == k;
      assert HoldsClaim(s'.payers[q].phase) && s'.payers[q].share == k;
    }
  }

  /** The claim step itself, and whatever ends the claim. */
  lemma {:induction false} ClaimKeepsClean(s: Split, p: nat, ph: Phase, st: ShareStatus, count: nat)
    requires Clean(s) && p < |s.payers|
    requires HoldsClaim(s.payers[p].phase) || !s.shares[s.payers[p].share].status.PaymentPending?
    requires HoldsClaim(ph) <==> st.PaymentPending?
    requires ClaimPhaseOk(ph, count) && count <= 1 && (st.Paid? ==> count == 1)
    requires st.Open? || st.Invited? || st.CoveredByOrganizer? ==> count == 0
    ensures Clean(SetShare(At(s, p, ph), s.payers[p].share, st).(collected := s.collected[s.payers[p].share := count]))
  {
    hide WalletInv, PayerOk, ShareOk;
    var i := s.payers[p].share;
    var s' := SetShare(At(s, p, ph), i, st).(collected := s.collected[i := count]);
    OthersHoldOther(s, p);
    forall x | x in s'.payers ensures PayerOk(s', x) {
      var q :| 0 <= q < |s'.payers| && s'.payers[q] == x;
      ClaimKeepsPayer(s, p, ph, st, count, q);
    }
    forall k: nat | k < |s'.shares| ensures ShareOk(s', k) { ClaimKeepsShare(s, p, ph, st, count, k); }
  }

  /** No other payer holds the share `p` holds, or the share nobody has claimed. */
  lemma {:induction false} OthersHoldOther(s: Split, p: nat)
    requires Clean(s) && p < |s.payers|
    requires HoldsClaim(s.payers[p].phase) || !s.shares[s.payers[p].share].status.PaymentPending?
    ensures forall q :: 0 <= q < |s.payers| && q != p && HoldsClaim(s.payers[q].phase) ==>
            s.payers[q].share != s.payers[p].share
  {
    hide WalletInv;
    forall q | 0 <= q < |s.payers| && q != p && HoldsClaim(s.payers[q].phase)
      ensures s.payers[q].share != s.payers[p].share {
      assert PayerOk(s, s.payers[q]);
    }
  }

  lemma {:induction false} LedgerKeepsClean(s: Split, ledger: Ledger)
    requires Clean(s) && WalletInv(ledger) && |s.ledger.holds| <= |ledger.holds|
    ensures Clean(s.(ledger := ledger))
  {
    hide WalletInv;
    var s' := s.(ledger := ledger);
    forall x | x in s'.payers ensures PayerOk(s', x) { assert PayerOk(s, x); }
    forall i: nat | i < |s'.shares| ensures ShareOk(s', i) { assert ShareOk(s, i); }
  }

  lemma {:induction false} GuaranteeKeepsClean(s: Split, g: Guarantee)
    requires Clean(s) && g.kind == s.g.kind
    ensures Clean(s.(g := g))
  {
    hide WalletInv;
    var s' := s.(g := g);
    forall x | x in s'.payers ensures PayerOk(s', x) { assert PayerOk(s, x); }
    forall i: nat | i < |s'.shares| ensures ShareOk(s', i) { assert ShareOk(s, i); }
  }

  /** No wallet operation forgets a hold. */
  lemma {:induction false} CardsKeepClean(s: Split, cards: int)
    requires Clean(s)
    ensures Clean(s.(cards := cards))
  {
    hide WalletInv;
    var s' := s.(cards := cards);
    forall x | x in s'.payers ensures PayerOk(s', x) { assert PayerOk(s, x); }
    forall i: nat | i < |s'.shares| ensures ShareOk(s', i) { assert ShareOk(s, i); }
  }

  lemma {:induction false} HoldsOnlyGrow(l: Ledger, op: WalletLedger.Op)
    ensures |l.holds| <= |Apply(l, op).0.holds|
    ensures forall h: nat :: h < |l.holds| && !TouchesHold(op, h) ==> Apply(l, op).0.holds[h] == l.holds[h]
  {
    hide Sum, Reserved, Greedy, Proportional, RowsOf;
  }

  lemma {:induction false} ArriveKeepsClean(s: Split, i: nat, f: Funding)
    requires Clean(s) && i < |s.shares|
    ensures Clean(s.(payers := s.payers + [Payer(i, s.shares[i].total, f, Start)]))
  {
    hide WalletInv;
    var s' := s.(payers := s.payers + [Payer(i, s.shares[i].total, f, Start)]);
    assert ShareOk(s, i);
    forall x | x in s'.payers ensures PayerOk(s', x) {
      if x in s.payers { assert PayerOk(s, x); }
    }
    forall k: nat | k < |s'.shares| ensures ShareOk(s', k) {
      assert ShareOk(s, k);
      if s.shares[k].status.PaymentPending? {
        var q :| 0 <= q < |s.payers| && HoldsClaim(s.payers[q].phase) && s.payers[q].share == k;
        assert HoldsClaim(s'.payers[q].phase) && s'.payers[q].share == k;
      }
    }
  }

  lemma {:induction false} CoverKeepsClean(s: Split)
    requires Clean(s) && forall p :: p in s.payers ==> !HoldsClaim(p.phase)
    ensures Clean(s.(shares := Cover(s.shares)))
  {
    hide WalletInv;
    var s' := s.(shares := Cover(s.shares));
    forall x | x in s'.payers ensures PayerOk(s', x) { assert PayerOk(s, x); }
    forall i: nat | i < |s'.shares| ensures ShareOk(s', i) { assert ShareOk(s, i); }
  }

  // ---------------------------------------------------------------------
  // Preservation: the whole step
  // ---------------------------------------------------------------------

  lemma {:induction false} ReduceIsAnOp(l: Ledger, h: nat, amount: int)
    requires WalletInv(l) && h < |l.holds| && amount >= 0
    ensures WalletInv(ReduceCas(l, h, amount)) && |ReduceCas(l, h, amount).holds| == |l.holds|
  {
    hide WalletInv;
    ReduceKeepsInv(l, h, amount);
  }

  /** Because the amount read before the release is still exact, the release is the wallet's own atomic release. */
  lemma {:induction false} ReleaseIsAnOp(l: Ledger, h: nat, amount: int)
    requires WalletInv(l) && h < |l.holds| && (l.holds[h].status.Active? ==> amount == l.holds[h].amount)
    ensures WalletInv(ReleaseCas(l, h, amount)) && |ReleaseCas(l, h, amount).holds| == |l.holds|
    ensures ReleaseCas(l, h, amount) == Apply(l, ReleaseHold(h)).0
  {
    hide WalletInv;
    ReleaseKeepsInv(l, h);
  }

  lemma {:induction false} CollectKeepsClean(s: Split, p: nat, st: ShareStatus, ok: bool)
    requires Clean(s) && p < |s.payers| && s.payers[p].phase == Claimed(st)
    ensures Clean(CollectStep(s, p, st, ok))
  {
    hide WalletInv, Apply;
    var me := s.payers[p];
    var i := me.share;
    assert PayerOk(s, me);
    var s' := CollectStep(s, p, st, ok);
    if s'.payers[p].phase.Collected? {
      ClaimKeepsClean(s, p, Collected, PaymentPending, 1);
    } else {
      PhaseKeepsClean(s, p, Refused(st));
    }
    var mid := s'.(ledger := s.ledger);
    assert s.shares[i := s.shares[i].(status := PaymentPending)] == s.shares;
    if me.funding.Wallet? {
      ApplyKeepsInv(s.ledger, DebitForBooking(me.funding.wallet, s.booking, me.amount));
      HoldsOnlyGrow(s.ledger, DebitForBooking(me.funding.wallet, s.booking, me.amount));
      LedgerKeepsClean(mid, s'.ledger);
    } else {
      CardsKeepClean(mid.(cards := s.cards), s'.cards);
    }
  }

  lemma {:induction false} ClaimStepKeepsClean(s: Split, p: nat, st: ShareStatus)
    requires Clean(s) && p < |s.payers| && s.payers[p].phase == Seen(st)
    ensures Clean(ClaimStep(s, p, st))
  {
    hide WalletInv;
    var i := s.payers[p].share;
    assert PayerOk(s, s.payers[p]) && ShareOk(s, i);
    if s.shares[i].status.Open? || s.shares[i].status.Invited? {
      ClaimKeepsClean(s, p, Claimed(st), PaymentPending, s.collected[i]);
      assert s.collected[i := s.collected[i]] == s.collected;
    } else {
      PhaseKeepsClean(s, p, Rejected);
    }
  }

  lemma {:induction false} HoldStepKeepsClean(s: Split, p: nat, left: int, ledger: Ledger)
    requires Clean(s) && p < |s.payers| && (s.payers[p].phase.HoldSeen? || s.payers[p].phase.ReleaseSeen?)
    requires WalletInv(ledger) && |ledger.holds| == |s.ledger.holds|
    ensures Clean(At(s.(ledger := ledger), p, HoldDone(left)))
  {
    hide WalletInv;
    assert PayerOk(s, s.payers[p]);
    PhaseKeepsClean(s, p, HoldDone(left));
    LedgerKeepsClean(At(s, p, HoldDone(left)), ledger);
  }

  lemma {:induction false} GuaranteeStepKeepsClean(s: Split, p: nat, g: Guarantee, ph: Phase)
    requires Clean(s) && p < |s.payers| && g.kind == s.g.kind
    requires s.payers[p].phase.GuaranteeSeen? || s.payers[p].phase.HoldDone?
    requires ph.Decreased? || ph.Finished?
    ensures Clean(At(s.(g := g), p, ph))
  {
    hide WalletInv;
    assert PayerOk(s, s.payers[p]);
    PhaseKeepsClean(s, p, ph);
    GuaranteeKeepsClean(At(s, p, ph), g);
  }

  lemma {:induction false} PayerStepKeepsClean(s: Split, p: nat, ok: bool)
    requires Inv(s) && p < |s.payers|
    ensures Clean(PayerStep(s, p, ok))
  {
    hide WalletInv, Apply, ReduceCas, ReleaseCas, Owed, ShareSum;
    var me := s.payers[p];
    var i := me.share;
    assert PayerOk(s, me) && ShareOk(s, i) && ReadsOk(s, me);
    var s' := PayerStep(s, p, ok);
    match me.phase
    case Start => PhaseKeepsClean(s, p, s'.payers[p].phase);
    case Seen(st) => ClaimStepKeepsClean(s, p, st);
    case Claimed(st) => CollectKeepsClean(s, p, st, ok);
    case Refused(st) =>
      ClaimKeepsClean(s, p, Rejected, st, s.collected[i]);
      assert s.collected[i := s.collected[i]] == s.collected;
    case Collected =>
      ClaimKeepsClean(s, p, Marked, ShareStatus.Paid, s.collected[i]);
      assert s.collected[i := s.collected[i]] == s.collected;
    case Marked => PhaseKeepsClean(s, p, s'.payers[p].phase);
    case GuaranteeSeen => GuaranteeStepKeepsClean(s, p, s'.g, s'.payers[p].phase);
    case Decreased => PhaseKeepsClean(s, p, s'.payers[p].phase);
    case Reread(left) => if s.g.kind.WalletReserve? { PhaseKeepsClean(s, p, s'.payers[p].phase); }
    case HoldSeen(left, _) =>
      if s.g.kind.WalletReserve? {
        ReduceIsAnOp(s.ledger, s.g.kind.hold, me.amount);
        HoldStepKeepsClean(s, p, left, s'.ledger);
      }
    case Releasing(left) => if s.g.kind.WalletReserve? { PhaseKeepsClean(s, p, s'.payers[p].phase); }
    case ReleaseSeen(left, amount) =>
      if s.g.kind.WalletReserve? {
        ReleaseIsAnOp(s.ledger, s.g.kind.hold, amount);
        HoldStepKeepsClean(s, p, left, s'.ledger);
      }
    case HoldDone(left) => GuaranteeStepKeepsClean(s, p, s'.g, Finished);
    case Finished =>
    case Rejected =>
    case DoublePayment =>
  }

  // ---------------------------------------------------------------------
  // Preservation: money
  // ---------------------------------------------------------------------

  lemma {:induction false} UnpaidNonNegative(shares: seq<Share>, g: Group)
    requires forall x :: x in shares ==> x.total >= 0
    ensures ShareSum(shares, g) >= 0
  {
    if shares != [] { UnpaidNonNegative(shares[..|shares| - 1], g); }
  }

  lemma {:induction false} Bounds(s: Split)
    requires Clean(s)
    ensures forall x :: x in s.payers ==> x.amount >= 0
    ensures ShareSum(s.shares, Unpaid) >= 0 && Owed(s.payers, ToGuarantee) >= 0 && Owed(s.payers, ToHold) >= 0
  {
    hide WalletInv, ShareSum, Owed;
    forall x | x in s.payers ensures x.amount >= 0 { assert PayerOk(s, x); }
    forall x | x in s.shares ensures x.total >= 0 {
      var i :| 0 <= i < |s.shares| && s.shares[i] == x;
      assert ShareOk(s, i);
    }
    UnpaidNonNegative(s.shares, Unpaid);
    OwedNonNegative(s.payers, ToGuarantee);
    OwedNonNegative(s.payers, ToHold);
  }

  /** `p` moves from one point to another: what it owed before goes, what it owes now comes. */
  lemma {:induction false} MoveOwed(s: Split, p: nat, ph: Phase)
    requires p < |s.payers|
    ensures forall d :: Owed(s.payers[p := s.payers[p].(phase := ph)], d) == Owed(s.payers, d)
              - (if Owes(s.payers[p].phase, d) then s.payers[p].amount else 0)
                + (if Owes(ph, d) then s.payers[p].amount else 0)
  {
    hide Owed;
    forall d { OwedUpdate(s.payers, p, s.payers[p].(phase := ph), d); }
  }

  lemma {:induction false} MoveShare(s: Split, i: nat, st: ShareStatus)
    requires i < |s.shares|
    ensures forall g :: ShareSum(s.shares[i := s.shares[i].(status := st)], g) == ShareSum(s.shares, g)
              - (if GroupOf(s.shares[i].status) == g then s.shares[i].total else 0)
                + (if GroupOf(st) == g then s.shares[i].total else 0)
  {
    hide ShareSum;
    forall g { ShareSumUpdate(s.shares, i, s.shares[i].(status := st), g); }
  }

  lemma {:induction false} CollectKeepsBalance(s: Split, p: nat, st: ShareStatus, ok: bool)
    requires Clean(s) && Balanced(s) && p < |s.payers| && s.payers[p].phase == Claimed(st)
    requires Clean(CollectStep(s, p, st, ok))
    ensures Balanced(CollectStep(s, p, st, ok))
    ensures s.g.kind.WalletReserve? ==>
            CollectStep(s, p, st, ok).ledger.holds[s.g.kind.hold] == s.ledger.holds[s.g.kind.hold]
  {
    hide WalletInv, Apply, Owed, ShareSum;
    var me := s.payers[p];
    var s' := CollectStep(s, p, st, ok);
    MoveOwed(s, p, s'.payers[p].phase);
    if me.funding.Wallet? { HoldsOnlyGrow(s.ledger, DebitForBooking(me.funding.wallet, s.booking, me.amount)); }
  }

  /** What the guarantee still covers is at least what any payer still owes it, and likewise for the hold. */
  lemma {:induction false} OwnDebtIsCovered(s: Split, p: nat)
    requires Clean(s) && Balanced(s) && p < |s.payers|
    ensures Owes(s.payers[p].phase, ToGuarantee) ==> s.payers[p].amount <= s.g.remaining
    ensures Owes(s.payers[p].phase, ToHold) && s.g.kind.WalletReserve? ==> s.payers[p].amount <= HoldAmount(s)
    ensures s.g.remaining >= 0
  {
    hide WalletInv, Owed, ShareSum;
    Bounds(s);
    if Owes(s.payers[p].phase, ToGuarantee) { OwedCovers(s.payers, p, ToGuarantee); }
    if Owes(s.payers[p].phase, ToHold) { OwedCovers(s.payers, p, ToHold); }
  }

  lemma {:induction false} PayerStepKeepsGuarantee(s: Split, p: nat, ok: bool)
    requires Inv(s) && p < |s.payers| && !LosesDecrement(s, Go(p, ok))
    requires Clean(PayerStep(s, p, ok))
    ensures GuaranteeBalanced(PayerStep(s, p, ok))
  {
    hide WalletInv, Apply, Owed, ShareSum;
    var me := s.payers[p];
    var i := me.share;
    assert PayerOk(s, me) && ShareOk(s, i) && ReadsOk(s, me);
    var s' := PayerStep(s, p, ok);
    OwnDebtIsCovered(s, p);
    Bounds(s);
    MoveOwed(s, p, s'.payers[p].phase);
    MoveShare(s, i, s'.shares[i].status);
    if me.phase.Claimed? {
      CollectKeepsBalance(s, p, me.phase.status, ok);
    } else {
      assert s.payers[p := me] == s.payers;
      assert s.shares[i := s.shares[i]] == s.shares;
    }
  }

  lemma {:induction false} PayerStepKeepsHold(s: Split, p: nat, ok: bool)
    requires Inv(s) && p < |s.payers|
    requires Clean(PayerStep(s, p, ok))
    ensures HoldBalanced(PayerStep(s, p, ok))
  {
    hide WalletInv, Apply, Owed, ShareSum;
    var me := s.payers[p];
    assert PayerOk(s, me) && ReadsOk(s, me);
    var s' := PayerStep(s, p, ok);
    OwnDebtIsCovered(s, p);
    MoveOwed(s, p, s'.payers[p].phase);
    if me.phase.Claimed? {
      CollectKeepsBalance(s, p, me.phase.status, ok);
    } else {
      assert s.payers[p := me] == s.payers;
    }
  }

  /** A payer's own reads, right after it made them. */
  lemma {:induction false} OwnReadsStayOk(s: Split, p: nat, ok: bool)
    requires Inv(s) && p < |s.payers|
    requires Clean(PayerStep(s, p, ok)) && Balanced(PayerStep(s, p, ok))
    ensures ReadsOk(PayerStep(s, p, ok), PayerStep(s, p, ok).payers[p])
  {
    hide WalletInv, Apply, Owed, ShareSum;
    var me := s.payers[p];
    assert PayerOk(s, me) && ReadsOk(s, me);
    OwnDebtIsCovered(s, p);
  }

  /** Nobody else's reads are spoilt: the hold only shrinks by what another payer owes it. */
  lemma {:induction false} OtherReadsStayOk(s: Split, p: nat, ok: bool, q: nat)
    requires Inv(s) && p < |s.payers| && q < |s.payers| && p != q
    requires Clean(PayerStep(s, p, ok)) && Balanced(PayerStep(s, p, ok))
    ensures ReadsOk(PayerStep(s, p, ok), s.payers[q])
  {
    hide WalletInv, Apply, Owed, ShareSum;
    var me, other := s.payers[p], s.payers[q];
    assert PayerOk(s, me) && ReadsOk(s, me) && PayerOk(s, other) && ReadsOk(s, other);
    Bounds(s);
    OwnDebtIsCovered(s, p);
    if Owes(me.phase, ToHold) && Owes(other.phase, ToHold) { OwedCoversTwo(s.payers, p, q, ToHold); }
    if me.phase.Claimed? { CollectKeepsBalance(s, p, me.phase.status, ok); }
  }

  lemma {:induction false} PayerStepKeepsInv(s: Split, p: nat, ok: bool)
    requires Inv(s) && p < |s.payers| && !LosesDecrement(s, Go(p, ok))
    ensures Inv(PayerStep(s, p, ok))
  {
    hide WalletInv, Apply, Owed, ShareSum, ReadsOk, GuaranteeBalanced, HoldBalanced, PayerStep, PayerOk, ShareOk,
      Exclusive;
    PayerStepKeepsClean(s, p, ok);
    PayerStepKeepsGuarantee(s, p, ok);
    PayerStepKeepsHold(s, p, ok);
    OwnReadsStayOk(s, p, ok);
    var s' := PayerStep(s, p, ok);
    PayerStepMovesOne(s, p, ok);
    forall x | x in s'.payers ensures ReadsOk(s', x) {
      var q :| 0 <= q < |s'.payers| && s'.payers[q] == x;
      if q != p { OtherReadsStayOk(s, p, ok, q); }
    }
  }

  lemma {:induction false} PayerStepMovesOne(s: Split, p: nat, ok: bool)
    requires ShapeOk(s) && p < |s.payers|
    ensures var s' := PayerStep(s, p, ok);
            |s'.payers| == |s.payers| && forall q :: 0 <= q < |s.payers| && q != p ==> s'.payers[q] == s.payers[q]
    ensures PayerStep(s, p, ok).g.kind == s.g.kind
  {
    hide Apply;
  }

  lemma {:induction false} ArriveKeepsBalance(s: Split, i: nat, f: Funding)
    requires GuaranteeBalanced(s) && ShapeOk(s) && i < |s.shares| && HoldBalanced(s)
    ensures GuaranteeBalanced(Step(s, Arrive(i, f))) && HoldBalanced(Step(s, Arrive(i, f)))
  {
    hide ShareSum, Owed;
    var x := Payer(i, s.shares[i].total, f, Start);
    OwedAppend(s.payers, x, ToGuarantee);
    OwedAppend(s.payers, x, ToHold);
  }

  lemma {:induction false} ArriveKeepsReads(s: Split, i: nat, f: Funding)
    requires ShapeOk(s) && i < |s.shares| && forall y :: y in s.payers ==> ReadsOk(s, y)
    ensures forall y :: y in Step(s, Arrive(i, f)).payers ==> ReadsOk(Step(s, Arrive(i, f)), y)
  {
    var s' := Step(s, Arrive(i, f));
    forall y | y in s'.payers ensures ReadsOk(s', y) {
      if y in s.payers { assert ReadsOk(s, y); }
    }
  }

  lemma {:induction false} OwedAppend(payers: seq<Payer>, x: Payer, d: Debt)
    requires !Owes(x.phase, d)
    ensures Owed(payers + [x], d) == Owed(payers, d)
  {
    assert (payers + [x])[..|payers|] == payers;
  }

  lemma {:induction false} OtherWalletOpKeepsInv(s: Split, op: WalletLedger.Op)
    requires Inv(s) && Fair(s, OtherWalletOp(op))
    ensures Inv(Step(s, OtherWalletOp(op)))
  {
    hide WalletInv, ShareSum, Owed, Apply;
    ApplyKeepsInv(s.ledger, op);
    HoldsOnlyGrow(s.ledger, op);
    var s' := Step(s, OtherWalletOp(op));
    LedgerKeepsClean(s, s'.ledger);
    forall y | y in s'.payers ensures ReadsOk(s', y) { assert ReadsOk(s, y); }
  }

  /** What `captureHold` debits for a hold that is still active is exactly what the hold reserves. */
  lemma {:induction false} CaptureEmptiesHold(l: Ledger, h: nat)
    requires WalletInv(l) && h < |l.holds|
    ensures var l' := Apply(l, CaptureHold(h)).0;
            && WalletInv(l') && |l'.holds| == |l.holds| && !l'.holds[h].status.Active?
            && Apply(l, CaptureHold(h)).1 == Done
            && Sum(l'.rows, HoldRows(DebitBooking, h)) ==
              Sum(l.rows, HoldRows(DebitBooking, h)) - ActiveAmount(l.holds[h])
  {
    hide Sum, Reserved, Greedy, RowsOf;
    CaptureIsTotal(l, h);
    CaptureKeepsInv(l, h);
    assert HoldOkAt(l, h) && HoldOkAt(Apply(l, CaptureHold(h)).0, h);
  }

  lemma {:induction false} NobodyOwesAnything(payers: seq<Payer>, d: Debt)
    requires (forall x :: x in payers ==> x.amount >= 0) && Owed(payers, d) == 0
    ensures forall x :: x in payers && Owes(x.phase, d) ==> x.amount == 0
  {
    if payers != [] {
      OwedNonNegative(payers[..|payers| - 1], d);
      NobodyOwesAnything(payers[..|payers| - 1], d);
      forall x | x in payers && Owes(x.phase, d) ensures x.amount == 0 {
        assert x in payers[..|payers| - 1] || x == payers[|payers| - 1];
      }
    }
  }

  lemma {:induction false} RefusedKeepsInv(s: Split, ok: bool)
    requires Inv(s) && SettlementRefused(s, ok)
    ensures Inv(Step(s, Settle(ok)))
  {
    hide WalletInv, ShareSum, Owed, Apply;
    var s' := Step(s, Settle(ok));
    GuaranteeKeepsClean(s, s'.g);
    forall y | y in s'.payers ensures ReadsOk(s', y) { assert ReadsOk(s, y); }
  }

  /** Nothing is left to capture: the unpaid shares, which add up to nothing, are covered. */
  lemma {:induction false} EmptySettleKeepsInv(s: Split, ok: bool)
    requires Inv(s) && SettleSafe(s) && s.g.remaining == 0
    ensures Inv(Step(s, Settle(ok)))
  {
    hide WalletInv, ShareSum, Owed, Apply, Cover;
    var s' := Step(s, Settle(ok));
    CoverSums(s.shares);
    CoverKeepsClean(s);
    Bounds(s);
    forall y | y in s'.payers ensures ReadsOk(s', y) { assert ReadsOk(s, y); }
  }

  lemma {:induction false} SettleKeepsReads(s: Split, s': Split, y: Payer)
    requires Inv(s) && SettleSafe(s) && s.g.remaining != 0 && y in s.payers && ShapeOk(s')
    requires s'.g.kind == s.g.kind && s'.g.remaining == 0 && (s.g.kind.WalletReserve? ==> HoldAmount(s') == 0)
    requires s.g.kind.WalletReserve? ==> !s'.ledger.holds[s.g.kind.hold].status.Active?
    ensures ReadsOk(s', y)
  {
    hide WalletInv, ShareSum, Owed;
    Bounds(s);
    assert ReadsOk(s, y);
    if s.g.kind.WalletReserve? { NobodyOwesAnything(s.payers, ToHold); }
  }

  lemma {:induction false} FullSettleKeepsInv(s: Split, ok: bool)
    requires Inv(s) && SettleSafe(s) && s.g.remaining != 0 && !SettlementRefused(s, ok)
    ensures Inv(Step(s, Settle(ok)))
  {
    hide WalletInv, ShareSum, Owed, Apply, ReadsOk, Cover;
    var s' := Step(s, Settle(ok));
    CoverSums(s.shares);
    CoverKeepsClean(s);
    Bounds(s);
    var covered := s.(shares := Cover(s.shares));
    GuaranteeKeepsClean(covered, s'.g);
    if s.g.kind.WalletReserve? {
      CaptureEmptiesHold(s.ledger, s.g.kind.hold);
      LedgerKeepsClean(covered.(g := s'.g), s'.ledger);
    } else {
      CardsKeepClean(covered.(g := s'.g), s'.cards);
    }
    forall y | y in s'.payers ensures ReadsOk(s', y) { SettleKeepsReads(s, s', y); }
  }

  lemma {:induction false} SettleKeepsInv(s: Split, ok: bool)
    requires Inv(s) && Fair(s, Settle(ok))
    ensures Inv(Step(s, Settle(ok)))
  {
    hide Inv, Step, SettleSafe;
    if SettlementRefused(s, ok) {
      RefusedKeepsInv(s, ok);
    } else if s.g.remaining == 0 {
      EmptySettleKeepsInv(s, ok);
    } else {
      FullSettleKeepsInv(s, ok);
    }
  }

  /** One step of anybody keeps everything. */
  lemma {:induction false} StepKeepsInv(s: Split, e: Event)
    requires Inv(s) && Fair(s, e)
    ensures Inv(Step(s, e))
  {
    hide WalletInv, ShareSum, Owed, Apply, ReadsOk, GuaranteeBalanced, HoldBalanced, PayerStep, SettleStep;
    match e
    case Arrive(i, f) =>
      if i < |s.shares| {
        ArriveKeepsClean(s, i, f);
        ArriveKeepsBalance(s, i, f);
        ArriveKeepsReads(s, i, f);
      }
    case Go(p, ok) => if p < |s.payers| { PayerStepKeepsInv(s, p, ok); }
    case Settle(ok) => SettleKeepsInv(s, ok);
    case OtherWalletOp(op) => OtherWalletOpKeepsInv(s, op);
  }

  // ---------------------------------------------------------------------
  // Runs
  // ---------------------------------------------------------------------

  /**
   A booking just confirmed: the organiser's share is paid, the others are open or invited, the guarantee covers them.
   */
  ghost predicate Confirmed(s: Split) {
    && WalletInv(s.ledger) && ShapeOk(s)
    && |s.shares| > 0 && s.shares[0].status.Paid? && s.collected[0] == 1
    && (forall x :: x in s.shares ==> x.total >= 0)
    && (forall i :: 0 < i < |s.shares| ==>
      (s.shares[i].status.Open? || s.shares[i].status.Invited?) && s.collected[i] == 0)
    && s.payers == []
    && s.g.status.Active? && s.g.captured == 0 && s.g.remaining == PriceOf(s.shares) - s.shares[0].total
    && (s.g.kind.WalletReserve? ==>
          HoldAmount(s) == s.g.remaining && s.ledger.holds[s.g.kind.hold].booking == s.booking
          && !s.ledger.holds[s.g.kind.hold].status.Captured?)
    && s.cards == s.shares[0].total
  }

  lemma {:induction false} OnlyOrganizerPaid(shares: seq<Share>)
    requires |shares| > 0 && shares[0].status.Paid?
    requires forall i :: 0 < i < |shares| ==> shares[i].status.Open? || shares[i].status.Invited?
    ensures ShareSum(shares, Unpaid) == PriceOf(shares) - shares[0].total && ShareSum(shares, Covered) == 0
  {
    var n := |shares| - 1;
    if n == 0 {
      assert shares[..n] == [];
    } else {
      OnlyOrganizerPaid(shares[..n]);
    }
  }

  lemma {:induction false} ConfirmedInv(s: Split)
    requires Confirmed(s)
    ensures Inv(s)
  {
    hide WalletInv, ShareSum, PriceOf;
    OnlyOrganizerPaid(s.shares);
    assert Owed(s.payers, ToGuarantee) == 0 && Owed(s.payers, ToHold) == 0;
  }

  /** A run: consecutive states, each step taken in a fair environment. */
  ghost predicate IsRun(states: seq<Split>, events: seq<Event>) {
    && |states| == |events| + 1
    && Confirmed(states[0])
    && forall k :: 0 <= k < |events| ==>
      ShapeOk(states[k]) && Fair(states[k], events[k]) && states[k + 1] == Step(states[k], events[k])
  }

  lemma {:induction false} RunKeepsInv(states: seq<Split>, events: seq<Event>, k: nat)
    requires IsRun(states, events) && k < |states|
    ensures Inv(states[k])
  {
    hide WalletInv, ShareSum, Owed, Step, Inv;
    if k == 0 {
      ConfirmedInv(states[0]);
    } else {
      RunKeepsInv(states, events, k - 1);
      StepKeepsInv(states[k - 1], events[k - 1]);
    }
  }

  /**
   Under every interleaving no share is collected twice and nobody is charged for a share that ends up unpaid or paid
   by another.
   */
  lemma {:induction false} NoDoubleCollection(states: seq<Split>, events: seq<Event>, k: nat)
    requires IsRun(states, events) && k < |states|
    ensures forall i :: 0 <= i < |states[k].collected| ==> states[k].collected[i] <= 1
    ensures forall p :: p in states[k].payers ==> !p.phase.DoublePayment?
    ensures var payers := states[k].payers;
            forall p, q :: 0 <= p < q < |payers| && payers[p].phase.Collected? && payers[q].phase.Collected? ==>
              payers[p].share != payers[q].share
  {
    hide WalletInv, ShareSum, Owed, Step, IsRun;
    RunKeepsInv(states, events, k);
    var s := states[k];
    forall i | 0 <= i < |s.collected| ensures s.collected[i] <= 1 { assert ShareOk(s, i); }
    forall p | p in s.payers ensures !p.phase.DoublePayment? { assert PayerOk(s, p); }
  }

  /** `markPaidIfPayable` always succeeds for a payer that has collected. */
  lemma {:induction false} MarkAlwaysSucceeds(states: seq<Split>, events: seq<Event>, k: nat, p: nat, ok: bool)
    requires IsRun(states, events) && k < |states|
    requires p < |states[k].payers| && states[k].payers[p].phase.Collected?
    requires ShapeOk(states[k])
    ensures Step(states[k], Go(p, ok)).payers[p].phase.Marked?
    ensures Step(states[k], Go(p, ok)).shares[states[k].payers[p].share].status.Paid?
  {
    hide WalletInv, ShareSum, Owed, IsRun;
    RunKeepsInv(states, events, k);
    assert PayerOk(states[k], states[k].payers[p]);
  }

  /** The prices of the shares never change. */
  lemma {:induction false} StepKeepsPrice(s: Split, e: Event)
    requires ShapeOk(s)
    ensures PriceOf(Step(s, e).shares) == PriceOf(s.shares)
  {
    hide PriceOf, Apply;
    CoverSums(s.shares);
    if e.Go? && e.p < |s.payers| {
      var i := s.payers[e.p].share;
      PriceUpdate(s.shares, i, Step(s, e).shares[i]);
      assert Step(s, e).shares == s.shares[i := Step(s, e).shares[i]];
    }
  }

  lemma {:induction false} RunKeepsPrice(states: seq<Split>, events: seq<Event>, k: nat)
    requires IsRun(states, events) && k < |states|
    ensures PriceOf(states[k].shares) == PriceOf(states[0].shares)
  {
    hide PriceOf, Step, Confirmed;
    if k > 0 {
      RunKeepsPrice(states, events, k - 1);
      StepKeepsPrice(states[k - 1], events[k - 1]);
    }
  }

  /**
   Conservation at every point of every run: paid shares + captured guarantee +
   remaining guarantee is the price of the booking, plus only what is paid and not yet taken off the guarantee;
   and the remaining guarantee is the sum of the unpaid shares plus that same amount.
   */
  lemma {:induction false} MoneyIsConserved(states: seq<Split>, events: seq<Event>, k: nat)
    requires IsRun(states, events) && k < |states|
    ensures var s := states[k];
            && ShareSum(s.shares, PaidUp) + s.g.captured + s.g.remaining == PriceOf(states[0].shares)
              + Owed(s.payers, ToGuarantee)
            && s.g.remaining == ShareSum(s.shares, Unpaid) + Owed(s.payers, ToGuarantee)
            && s.g.remaining >= 0
  {
    hide WalletInv, ShareSum, Owed, Step, PriceOf, IsRun, Clean;
    RunKeepsInv(states, events, k);
    RunKeepsPrice(states, events, k);
    GroupsPartition(states[k].shares);
    Bounds(states[k]);
  }

  /**
   With nobody in flight: exact conservation, remaining = unpaid shares, and the active hold equals the remaining
   guarantee.
   */
  lemma {:induction false} AtRestEverythingAgrees(states: seq<Split>, events: seq<Event>, k: nat)
    requires IsRun(states, events) && k < |states|
    requires forall p :: p in states[k].payers ==> !InFlight(p.phase)
    ensures var s := states[k];
            && ShareSum(s.shares, PaidUp) + s.g.captured + s.g.remaining == PriceOf(states[0].shares)
            && s.g.remaining == ShareSum(s.shares, Unpaid)
            && ShapeOk(s) && (s.g.kind.WalletReserve? ==> HoldAmount(s) == s.g.remaining)
            && forall i :: 0 <= i < |s.shares| ==> !s.shares[i].status.PaymentPending?
  {
    hide WalletInv, ShareSum, Owed, Step, PriceOf, IsRun;
    MoneyIsConserved(states, events, k);
    RunKeepsInv(states, events, k);
    var s := states[k];
    NobodyOwes(s.payers, ToGuarantee);
    NobodyOwes(s.payers, ToHold);
    forall i | 0 <= i < |s.shares| ensures !s.shares[i].status.PaymentPending? { assert ShareOk(s, i); }
  }

  /**
   At every point the active hold is the remaining guarantee plus the releases not yet applied to it, on a sound
   wallet.
   */
  lemma {:induction false} HoldFollowsGuarantee(states: seq<Split>, events: seq<Event>, k: nat)
    requires IsRun(states, events) && k < |states|
    ensures WalletInv(states[k].ledger) && ShapeOk(states[k])
    ensures states[k].g.kind.WalletReserve? ==>
            HoldAmount(states[k]) == states[k].g.remaining + Owed(states[k].payers, ToHold)
  {
    hide Owed, ShareSum, Step, IsRun, WalletInv;
    RunKeepsInv(states, events, k);
  }
}
