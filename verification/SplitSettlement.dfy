/**
 Settling a SPLIT booking: what it takes from the organiser, exactly when it is safe, and what an unsafe settlement
 does. Then the guarantee's status, which payers write without a condition: exactly what it says after any run, and
 when it is wrong.
 */
module SplitSettlement {
  import opened Common
  import opened Reachability
  import opened WalletLedger
  import opened WalletProofs
  import opened SplitProtocol

  // ---------------------------------------------------------------------
  // What a settlement takes
  // ---------------------------------------------------------------------

  /** What has been debited for the guarantee's hold so far. */
  function HoldDebits(s: Split): int
    requires s.g.kind.WalletReserve?
  {
    -Sum(s.ledger.rows, HoldRows(DebitBooking, s.g.kind.hold))
  }

  /** The unpaid shares, and what is paid but not yet taken off the guarantee or its hold. */
  function StillReserved(s: Split): int {
    ShareSum(s.shares, Unpaid) + Owed(s.payers, ToGuarantee) + Owed(s.payers, ToHold)
  }

  /**
   From any point of any run, a settlement that is not refused captures the remaining guarantee, which is the unpaid
   shares plus what is still owed to it; from a wallet it debits, besides, what is owed to the hold. It leaves nothing
   payable.
   */
  lemma {:induction false} SettlementTakes(s: Split, ok: bool)
    requires Inv(s) && !SettlementRefused(s, ok)
    ensures var s' := Step(s, Settle(ok));
            && s'.g.remaining == 0 && s'.g.kind == s.g.kind
            && s'.g.captured - s.g.captured == ShareSum(s.shares, Unpaid) + Owed(s.payers, ToGuarantee)
            && |s'.shares| == |s.shares| && (forall i :: 0 <= i < |s.shares| ==>
                  s'.shares[i] == if Payable(s.shares[i].status) then s.shares[i].(status := CoveredByOrganizer)
                                  else s.shares[i])
            && s'.cards - s.cards == (if s.g.kind.CardOffSession? then s'.g.captured - s.g.captured else 0)
            && (s.g.kind.WalletReserve? ==>
                  HoldDebits(s') - HoldDebits(s) == if s.g.remaining == 0 then 0 else StillReserved(s))
  {
    hide WalletInv, ShareSum, Owed, Apply, Sum;
    Bounds(s);
    if s.g.kind.WalletReserve? { CaptureEmptiesHold(s.ledger, s.g.kind.hold); }
  }

  /**
   So the organiser's wallet is debited exactly the unpaid shares if and only if nothing is owed, or nothing remains.
   */
  lemma {:induction false} SettlementIsExactWhen(s: Split, ok: bool)
    requires Inv(s) && s.g.kind.WalletReserve?
    ensures Step(s, Settle(ok)).g.kind == s.g.kind
    ensures HoldDebits(Step(s, Settle(ok))) - HoldDebits(s) == ShareSum(s.shares, Unpaid)
            <==> s.g.remaining == 0 || (Owed(s.payers, ToGuarantee) == 0 && Owed(s.payers, ToHold) == 0)
  {
    hide WalletInv, ShareSum, Owed, HoldDebits, Step;
    SettlementTakes(s, ok);
    Bounds(s);
    assert s.g.remaining == ShareSum(s.shares, Unpaid) + Owed(s.payers, ToGuarantee) by { assert GuaranteeBalanced(s); }
  }

  // ---------------------------------------------------------------------
  // Exactly which steps keep the invariant
  // ---------------------------------------------------------------------

  /** Settling over a claim breaks it. */
  lemma {:induction false} UnsafeSettleBreaksInv(s: Split, ok: bool)
    requires Inv(s) && !SettlementRefused(s, ok) && !SettleSafe(s)
    ensures !Inv(Step(s, Settle(ok)))
  {
    hide WalletInv, ShareSum, Owed, Apply;
    var s' := Step(s, Settle(ok));
    Bounds(s);
    CoverSums(s.shares);
    if p :| p in s.payers && HoldsClaim(p.phase) {
      assert PayerOk(s, p);
      assert p in s'.payers && !PayerOk(s', p);
    } else if s.g.kind.WalletReserve? {
      CaptureEmptiesHold(s.ledger, s.g.kind.hold);
    }
  }

  /** A payer whose decrement meets a FAILED guarantee leaves the guarantee above the unpaid shares. */
  lemma {:induction false} LostDecrementBreaksInv(s: Split, e: Event)
    requires Inv(s) && LosesDecrement(s, e)
    ensures !Inv(Step(s, e))
  {
    hide WalletInv, ShareSum, Owed;
    MoveOwed(s, e.p, Finished);
  }

  /** From any point of any run, a payment step or a settlement keeps the invariant exactly when it is fair. */
  lemma {:induction false} FairIsExact(s: Split, e: Event)
    requires Inv(s) && !e.OtherWalletOp?
    ensures Inv(Step(s, e)) <==> Fair(s, e)
  {
    hide Inv, Step, SettleSafe, SettlementRefused;
    if Fair(s, e) {
      StepKeepsInv(s, e);
    } else if e.Settle? {
      UnsafeSettleBreaksInv(s, e.cardAccepted);
    } else {
      LostDecrementBreaksInv(s, e);
    }
  }

  /** Every step keeps the references between the tables, so the definition of a run leaves no run out. */
  lemma {:induction false} StepKeepsShape(s: Split, e: Event)
    requires ShapeOk(s)
    ensures ShapeOk(Step(s, e))
  {
    hide Apply, HoldAmount;
    match e
    case Arrive(_, _) =>
    case Go(p, _) => if p < |s.payers| { PayerStepKeepsShape(s, p, e.cardAccepted); }
    case Settle(_) => if s.g.kind.WalletReserve? { HoldsOnlyGrow(s.ledger, CaptureHold(s.g.kind.hold)); }
    case OtherWalletOp(op) => HoldsOnlyGrow(s.ledger, op);
  }

  lemma {:induction false} PayerStepKeepsShape(s: Split, p: nat, ok: bool)
    requires ShapeOk(s) && p < |s.payers|
    ensures ShapeOk(PayerStep(s, p, ok))
  {
    hide Apply;
    var me := s.payers[p];
    if me.funding.Wallet? { HoldsOnlyGrow(s.ledger, Op.DebitForBooking(me.funding.wallet, s.booking, me.amount)); }
  }

  /** Any interleaving of payers, settlements and wallet traffic whatever. */
  ghost predicate IsInterleaving(states: seq<Split>, events: seq<Event>) {
    && |states| == |events| + 1 && Confirmed(states[0])
    && forall k :: 0 <= k < |events| ==> ShapeOk(states[k]) && states[k + 1] == Step(states[k], events[k])
  }

  /** Any run at all; only the other wallet traffic is constrained. */
  ghost predicate IsAnyRun(states: seq<Split>, events: seq<Event>) {
    && IsInterleaving(states, events)
    && forall k :: 0 <= k < |events| ==> events[k].OtherWalletOp? ==> Fair(states[k], events[k])
  }

  /**
   Over every run: claims exclusive, collections single and money balanced at every point, exactly when every step was
   fair.
   */
  lemma {:induction false} SoundExactlyWhenFair(states: seq<Split>, events: seq<Event>)
    requires IsAnyRun(states, events)
    ensures (forall k :: 0 <= k < |states| ==> Inv(states[k])) <==> forall k :: 0 <= k < |events| ==>
            Fair(states[k], events[k])
  {
    hide Inv, Step, Fair, Confirmed;
    if forall k :: 0 <= k < |events| ==> Fair(states[k], events[k]) {
      forall k | 0 <= k < |states| ensures Inv(states[k]) { SplitProtocol.RunKeepsInv(states, events, k); }
    }
    if forall k :: 0 <= k < |states| ==> Inv(states[k]) {
      forall k | 0 <= k < |events| ensures Fair(states[k], events[k]) {
        assert Inv(states[k + 1]);
        if !events[k].OtherWalletOp? { FairIsExact(states[k], events[k]); }
      }
    }
  }

  // ---------------------------------------------------------------------
  // What no settlement can break
  // ---------------------------------------------------------------------

  predicate Unclaimed(st: ShareStatus) { st.Open? || st.Invited? }

  /** A claimed share is not claimable, and it is collected only at the end of its claim. */
  predicate ClaimOk(s: Split, p: Payer)
    requires p.share < |s.shares| == |s.collected|
  {
    && (p.phase.Seen? || p.phase.Claimed? || p.phase.Refused? ==> Unclaimed(p.phase.status))
    && (HoldsClaim(p.phase) ==> !Unclaimed(s.shares[p.share].status))
    && (p.phase.Claimed? || p.phase.Refused? ==> s.collected[p.share] == 0)
  }

  predicate Single(s: Split) {
    && ShapeOk(s) && Exclusive(s.payers)
    && (forall i :: 0 <= i < |s.shares| ==>
      s.collected[i] <= 1 && (Unclaimed(s.shares[i].status) ==> s.collected[i] == 0))
    && forall p :: 0 <= p < |s.payers| ==> ClaimOk(s, s.payers[p])
  }

  /** A payer that takes, keeps or ends the claim on its share, with the share's new status and count. */
  lemma {:induction false} ClaimKeepsSingle(s: Split, p: nat, ph: Phase, st: ShareStatus, count: nat)
    requires Single(s) && p < |s.payers| && count <= 1 && (Unclaimed(st) ==> count == 0)
    requires HoldsClaim(s.payers[p].phase) || (HoldsClaim(ph) && Unclaimed(s.shares[s.payers[p].share].status))
    requires ph.Seen? || ph.Claimed? || ph.Refused? ==> Unclaimed(ph.status)
    requires HoldsClaim(ph) ==> !Unclaimed(st)
    requires ph.Claimed? || ph.Refused? ==> count == 0
    ensures var i := s.payers[p].share;
            Single(SetShare(At(s, p, ph), i, st).(collected := s.collected[i := count]))
  {
    var i := s.payers[p].share;
    var t := SetShare(At(s, p, ph), i, st).(collected := s.collected[i := count]);
    forall q | 0 <= q < |t.payers| ensures ClaimOk(t, t.payers[q]) {
      assert ClaimOk(s, s.payers[q]);
    }
  }

  /** A payer that moves without touching its share. */
  lemma {:induction false} MoveKeepsSingle(s: Split, t: Split, p: nat, ph: Phase)
    requires Single(s) && p < |s.payers| && !HoldsClaim(ph) && ShapeOk(t)
    requires ph.Seen? ==> Unclaimed(ph.status)
    requires t.shares == s.shares && t.collected == s.collected && t.payers == At(s, p, ph).payers
    ensures Single(t)
  {
    forall q | 0 <= q < |t.payers| ensures ClaimOk(t, t.payers[q]) {
      assert ClaimOk(s, s.payers[q]);
    }
  }

  lemma {:induction false} CollectKeepsSingle(s: Split, p: nat, st: ShareStatus, ok: bool)
    requires Single(s) && p < |s.payers| && s.payers[p].phase == Claimed(st)
    ensures Single(CollectStep(s, p, st, ok))
  {
    hide Single, Apply, ShapeOk;
    SingleAt(s, p);
    var i := s.payers[p].share;
    var t := CollectStep(s, p, st, ok);
    PayerStepKeepsShape(s, p, ok);
    ClaimKeepsSingle(s, p, t.payers[p].phase, s.shares[i].status, t.collected[i]);
    assert s.shares[i := s.shares[i].(status := s.shares[i].status)] == s.shares;
    assert s.collected[i := s.collected[i]] == s.collected;
    SameSingle(SetShare(At(s, p, t.payers[p].phase), i, s.shares[i].status)
                 .(collected := s.collected[i := t.collected[i]]), t);
  }

  lemma {:induction false} PayerStepKeepsSingle(s: Split, p: nat, ok: bool)
    requires Single(s) && p < |s.payers|
    ensures Single(PayerStep(s, p, ok))
  {
    hide Single, ReduceCas, ReleaseCas, CollectStep, ShapeOk;
    SingleAt(s, p);
    var ph, i := s.payers[p].phase, s.payers[p].share;
    var t := PayerStep(s, p, ok);
    PayerStepKeepsShape(s, p, ok);
    if ph.Claimed? {
      CollectKeepsSingle(s, p, ph.status, ok);
    } else if HoldsClaim(ph) || (ph.Seen? && Unclaimed(s.shares[i].status)) {
      ClaimKeepsSingle(s, p, t.payers[p].phase, t.shares[i].status, s.collected[i]);
      assert s.collected[i := s.collected[i]] == s.collected;
      assert s.shares[i := s.shares[i].(status := s.shares[i].status)] == s.shares;
    } else {
      assert s.payers[p := s.payers[p].(phase := ph)] == s.payers;
      MoveKeepsSingle(s, t, p, t.payers[p].phase);
    }
  }

  lemma {:induction false} SingleAt(s: Split, p: nat)
    requires Single(s) && p < |s.payers|
    ensures ShapeOk(s) && s.payers[p].share < |s.shares| && ClaimOk(s, s.payers[p])
    ensures s.collected[s.payers[p].share] <= 1
    ensures Unclaimed(s.shares[s.payers[p].share].status) ==> s.collected[s.payers[p].share] == 0
  {
  }

  lemma {:induction false} SameSingle(s: Split, t: Split)
    requires Single(s) && ShapeOk(t) && t.shares == s.shares && t.collected == s.collected && t.payers == s.payers
    ensures Single(t)
  {
    forall q | 0 <= q < |t.payers| ensures ClaimOk(t, t.payers[q]) { assert ClaimOk(s, s.payers[q]); }
  }

  lemma {:induction false} StepKeepsSingle(s: Split, e: Event)
    requires Single(s)
    ensures Single(Step(s, e))
  {
    hide Apply, PayerStep;
    StepKeepsShape(s, e);
    var t := Step(s, e);
    match e
    case Go(p, ok) => if p < |s.payers| { PayerStepKeepsSingle(s, p, ok); }
    case OtherWalletOp(_) => SameSingle(s, t);
    case Settle(_) =>
      forall q | 0 <= q < |t.payers| ensures ClaimOk(t, t.payers[q]) { assert ClaimOk(s, s.payers[q]); }
    case Arrive(_, _) =>
      forall q | 0 <= q < |t.payers| ensures ClaimOk(t, t.payers[q]) {
        if q < |s.payers| { assert ClaimOk(s, s.payers[q]); }
      }
  }

  /** Whenever settlements happen and whatever else goes on, no share is collected twice and claims are exclusive. */
  lemma {:induction false} NeverCollectedTwice(states: seq<Split>, events: seq<Event>, k: nat)
    requires IsInterleaving(states, events) && k < |states|
    ensures Single(states[k])
    ensures forall i :: 0 <= i < |states[k].collected| ==> states[k].collected[i] <= 1
    ensures var payers := states[k].payers;
            forall p, q :: 0 <= p < q < |payers| && HoldsClaim(payers[p].phase) && HoldsClaim(payers[q].phase) ==>
              payers[p].share != payers[q].share
  {
    hide Step, WalletInv, PriceOf;
    if k == 0 {
      assert forall i :: 0 <= i < |states[0].shares| ==> i == 0 || states[0].collected[i] == 0;
    } else {
      NeverCollectedTwice(states, events, k - 1);
      StepKeepsSingle(states[k - 1], events[k - 1]);
    }
  }

  // ---------------------------------------------------------------------
  // What unsafe settlements do
  // ---------------------------------------------------------------------

  /** One event of any interleaving, fair or not. */
  function AnyStep(s: Split, e: Event): Split { if ShapeOk(s) then Step(s, e) else s }

  lemma {:induction false} Next(s: Split, t: Split, e: Event) returns (u: Split)
    requires Reaches(AnyStep, s, t) && ShapeOk(t)
    ensures u == Step(t, e) && Reaches(AnyStep, s, u)
  {
    hide Step, Reaches;
    u := Step(t, e);
    ReachesNext(AnyStep, s, t, e);
  }

  /** The state `t` with share `i` claimed by a new last payer, which stands at `ph`. */
  function WithPayer(t: Split, i: nat, ph: Phase): Split
    requires i < |t.shares|
  {
    SetShare(t, i, PaymentPending).(payers := t.payers + [Payer(i, t.shares[i].total, External, ph)])
  }

  /** One payer arrives, sees its share open and claims it. */
  lemma {:induction false} ClaimIsReached(s: Split, t: Split, i: nat) returns (u: Split)
    requires Reaches(AnyStep, s, t) && ShapeOk(t) && i < |t.shares|
             && (t.shares[i].status.Open? || t.shares[i].status.Invited?)
    ensures Reaches(AnyStep, s, u) && ShapeOk(u) && u == WithPayer(t, i, Claimed(t.shares[i].status))
  {
    hide Reaches;
    var p := |t.payers|;
    var st := t.shares[i].status;
    var a := Next(s, t, Arrive(i, External));
    var b := Next(s, a, Go(p, true));
    assert b == a.(payers := t.payers + [Payer(i, t.shares[i].total, External, Seen(st))]);
    u := Next(s, b, Go(p, true));
    assert u.payers == t.payers + [Payer(i, t.shares[i].total, External, Claimed(st))];
  }

  /**
   Settling between a payer's charge and its mark: from every confirmed booking with an invited share, a run in which
   the payer is charged for the share, the organiser too, and the payer ends in the double-payment branch.
   */
  lemma {:induction false} SettlingInFlightChargesTwice(s: Split, i: nat)
    requires Confirmed(s) && 0 < i < |s.shares|
    ensures exists u ::
              && Reaches(AnyStep, s, u) && |u.payers| == 1 && u.payers[0].share == i && u.payers[0].phase.DoublePayment?
              && u.collected == s.collected[i := 1] && u.g.remaining == 0 && u.g.captured == s.g.remaining
  {
    hide Reaches, WalletInv, PriceOf, Apply;
    ReachesItself(AnyStep, s);
    var a := ClaimIsReached(s, s, i);
    var b := Next(s, a, Go(0, true));
    assert b.payers[0].phase.Collected? && b.collected == s.collected[i := 1];
    var c := Next(s, b, Settle(true));
    assert c.shares[i].status.CoveredByOrganizer?;
    StepKeepsShape(b, Settle(true));
    var d := Next(s, c, Go(0, true));
  }

  /**
   Settling between a refused charge and its rollback: a run after which the share is open for payment again, although
   the organiser has been charged for it.
   */
  lemma {:induction false} SettlingBeforeRollbackReopens(s: Split, i: nat)
    requires Confirmed(s) && 0 < i < |s.shares|
    ensures exists u :: Reaches(AnyStep, s, u) && |u.shares| == |s.shares| && u.shares[i] == s.shares[i]
                        && u.g.remaining == 0 && u.g.captured == s.g.remaining
  {
    hide Reaches, WalletInv, PriceOf, Apply;
    ReachesItself(AnyStep, s);
    var a := ClaimIsReached(s, s, i);
    var b := Next(s, a, Go(0, false));
    assert b.payers[0].phase == Refused(s.shares[i].status);
    var c := Next(s, b, Settle(true));
    assert c.shares[i].status.CoveredByOrganizer?;
    StepKeepsShape(b, Settle(true));
    var d := Next(s, c, Go(0, true));
    assert d.shares[i] == s.shares[i];
  }

  // ---------------------------------------------------------------------
  // The guarantee's status
  // ---------------------------------------------------------------------

  /** This step writes the status, having reread `left`. */
  predicate Writes(s: Split, e: Event, left: int) {
    e.Go? && e.p < |s.payers| && s.payers[e.p].phase == HoldDone(left)
  }

  /** What the last status write before point `k` had reread. */
  function LastLeft(states: seq<Split>, events: seq<Event>, k: nat): Option<int>
    requires k <= |events| < |states|
  {
    if k == 0 then None
    else
      var s, e := states[k - 1], events[k - 1];
      if e.Go? && e.p < |s.payers| && s.payers[e.p].phase.HoldDone? then Some(s.payers[e.p].phase.left)
      else LastLeft(states, events, k - 1)
  }

  predicate NoSettlement(events: seq<Event>, k: nat)
    requires k <= |events|
  {
    forall j :: 0 <= j < k ==> !events[j].Settle?
  }

  /** Before any settlement the status is ACTIVE until the first write, and then what the last write says. */
  lemma {:induction false} StatusIsLastWrite(states: seq<Split>, events: seq<Event>, k: nat)
    requires IsRun(states, events) && k < |states| && NoSettlement(events, k)
    ensures states[k].g.status == match LastLeft(states, events, k)
                                  case None => GuaranteeStatus.Active
                                  case Some(left) => if left == 0 then GuaranteeStatus.Released else PartiallyReleased
  {
    if k > 0 {
      StatusIsLastWrite(states, events, k - 1);
      StepWritesStatus(states[k - 1], events[k - 1]);
    }
  }

  lemma {:induction false} StepWritesStatus(s: Split, e: Event)
    requires ShapeOk(s) && !e.Settle?
    ensures Step(s, e).g.status ==
            if e.Go? && e.p < |s.payers| && s.payers[e.p].phase.HoldDone?
            then (if s.payers[e.p].phase.left == 0 then GuaranteeStatus.Released else PartiallyReleased)
            else s.g.status
  {
    hide Apply, ReduceCas, ReleaseCas;
  }

  /** This payer has seen, or is about to see, that nothing remains. */
  predicate KnowsZero(ph: Phase) {
    || ph.Decreased?
    || ((ph.Reread? || ph.HoldSeen? || ph.Releasing? || ph.ReleaseSeen? || ph.HoldDone?) && ph.left == 0)
  }

  predicate SomebodyKnowsZero(payers: seq<Payer>) { exists p :: 0 <= p < |payers| && KnowsZero(payers[p].phase) }

  /** Some status write before point `k` had reread zero. */
  predicate ZeroWasWritten(states: seq<Split>, events: seq<Event>, k: nat)
    requires k <= |events| < |states|
  {
    exists j :: 0 <= j < k && Writes(states[j], events[j], 0)
  }

  lemma {:induction false} StepKeepsKnowledge(s: Split, e: Event)
    requires ShapeOk(s) && !e.Settle? && !Writes(s, e, 0)
    requires s.g.remaining != 0 || SomebodyKnowsZero(s.payers)
    ensures Step(s, e).g.remaining != 0 || SomebodyKnowsZero(Step(s, e).payers)
  {
    hide Apply, ReduceCas, ReleaseCas;
    var t := Step(s, e);
    if s.g.remaining == 0 {
      var p :| 0 <= p < |s.payers| && KnowsZero(s.payers[p].phase);
      assert KnowsZero(t.payers[p].phase);
    } else if t.g.remaining == 0 {
      assert KnowsZero(t.payers[e.p].phase);
    }
  }

  /** Once nothing remains of a guarantee that covered something, somebody knows it or has written it. */
  lemma {:induction false} ZeroIsNoticed(states: seq<Split>, events: seq<Event>, k: nat)
    requires IsRun(states, events) && k < |states| && NoSettlement(events, k) && states[0].g.remaining != 0
    ensures states[k].g.remaining != 0 || SomebodyKnowsZero(states[k].payers) || ZeroWasWritten(states, events, k)
  {
    hide Step, Confirmed, KnowsZero, SomebodyKnowsZero, Fair;
    if k > 0 {
      ZeroIsNoticed(states, events, k - 1);
      if ZeroWasWritten(states, events, k - 1) {
        var j :| 0 <= j < k - 1 && Writes(states[j], events[j], 0);
        assert Writes(states[j], events[j], 0);
      } else if !Writes(states[k - 1], events[k - 1], 0) {
        StepKeepsKnowledge(states[k - 1], events[k - 1]);
      }
    }
  }

  /**
   At rest before settlement, with nothing left of a guarantee that covered something: some write did say RELEASED,
   and the status says so exactly when that write, or another one that had reread zero, came last.
   */
  lemma {:induction false} StatusIsRightWhen(states: seq<Split>, events: seq<Event>, k: nat)
    requires IsRun(states, events) && k < |states| && NoSettlement(events, k) && states[0].g.remaining != 0
    requires states[k].g.remaining == 0 && forall p :: p in states[k].payers ==> !InFlight(p.phase)
    ensures ZeroWasWritten(states, events, k)
    ensures states[k].g.status.Released? <==> LastLeft(states, events, k) == Some(0)
  {
    hide IsRun, LastLeft, ZeroWasWritten;
    ZeroIsNoticed(states, events, k);
    StatusIsLastWrite(states, events, k);
    KnowingIsInFlight(states[k].payers);
  }

  lemma {:induction false} KnowingIsInFlight(payers: seq<Payer>)
    ensures SomebodyKnowsZero(payers) ==> exists p :: p in payers && InFlight(p.phase)
  {
    if SomebodyKnowsZero(payers) {
      var p :| 0 <= p < |payers| && KnowsZero(payers[p].phase);
      assert payers[p] in payers;
    }
  }

  /** A card payer claims a share and pays it. */
  lemma {:induction false} PayUpToMark(s: Split, t: Split, i: nat) returns (u: Split)
    requires Reaches(AnyStep, s, t) && ShapeOk(t) && i < |t.shares|
             && (t.shares[i].status.Open? || t.shares[i].status.Invited?)
    ensures && Reaches(AnyStep, s, u) && ShapeOk(u) && u.g == t.g
            && u.shares == t.shares[i := t.shares[i].(status := ShareStatus.Paid)]
            && u.payers == t.payers + [Payer(i, t.shares[i].total, External, Marked)]
  {
    hide Reaches;
    var p := |t.payers|;
    u := ClaimIsReached(s, t, i);
    u := Next(s, u, Go(p, true));
    u := Next(s, u, Go(p, true));
    assert u.payers == t.payers + [Payer(i, t.shares[i].total, External, Marked)];
  }

  /** It takes the share off a card guarantee and stops just before its status write. */
  lemma {:induction false} PayUpToWrite(s: Split, t: Split, i: nat) returns (u: Split)
    requires Reaches(AnyStep, s, t) && ShapeOk(t) && i < |t.shares|
             && (t.shares[i].status.Open? || t.shares[i].status.Invited?)
    requires t.g.kind.CardOffSession? && (t.g.status.Active? || t.g.status.PartiallyReleased?)
    requires t.g.remaining >= t.shares[i].total
    ensures var left := t.g.remaining - t.shares[i].total;
            && Reaches(AnyStep, s, u) && ShapeOk(u) && u.g == t.g.(remaining := left)
            && u.shares == t.shares[i := t.shares[i].(status := ShareStatus.Paid)]
            && u.payers == t.payers + [Payer(i, t.shares[i].total, External, HoldDone(left))]
  {
    hide Reaches;
    var p, total := |t.payers|, t.shares[i].total;
    u := PayUpToMark(s, t, i);
    u := Next(s, u, Go(p, true));
    u := Next(s, u, Go(p, true));
    assert u.payers == t.payers + [Payer(i, total, External, Decreased)];
    u := Next(s, u, Go(p, true));
    assert u.payers == t.payers + [Payer(i, total, External, HoldDone(t.g.remaining - total))];
  }

  /**
   The other order happens: from every confirmed booking on a card guarantee with two invited shares worth something and
   nothing else, a run that ends with both paid, nothing remaining, nobody in flight, and PARTIALLY_RELEASED.
   */
  lemma {:induction false} ReleasedCanBeOverwritten(s: Split)
    requires Confirmed(s) && s.g.kind.CardOffSession? && |s.shares| == 3 && s.shares[1].total > 0
             && s.shares[2].total > 0
    ensures exists u :: Reaches(AnyStep, s, u) && u.g.remaining == 0 && u.g.status.PartiallyReleased? && |u.payers| == 2
                        && (forall p :: p in u.payers ==> p.phase.Finished?) && forall x :: x in u.shares ==>
                          x.status.Paid?
  {
    hide Reaches, WalletInv, PriceOf;
    ReachesItself(AnyStep, s);
    assert s.g.remaining == s.shares[1].total + s.shares[2].total by { PriceOfThree(s.shares); }
    var a := PayUpToWrite(s, s, 1);
    var b := PayUpToWrite(s, a, 2);
    var c := Next(s, b, Go(1, true));
    assert c.g.status.Released? && c.payers[0] == b.payers[0];
    var d := Next(s, c, Go(0, true));
    assert d.payers[0].phase.Finished? && d.payers[1].phase.Finished?;
    assert d.shares == [s.shares[0], d.shares[1], d.shares[2]];
  }

  lemma {:induction false} PriceOfThree(shares: seq<Share>)
    requires |shares| == 3
    ensures PriceOf(shares) == shares[0].total + shares[1].total + shares[2].total
  {
    assert shares[..2][..1][..0] == [] && shares[..2][..1] == [shares[0]];
    assert PriceOf(shares[..2][..1]) == shares[0].total;
    assert PriceOf(shares[..2]) == shares[0].total + shares[1].total;
  }
}
