/**
 The wallet service as it runs: an object whose methods append rows and update holds, with
 the two allocation loops. Every method is tied to the ledger operation of the same name,
 so each run theorem of WalletProofs is a theorem about this object.
 */
module WalletServices {
  import opened Common
  import opened WalletLedger

  datatype Line = Line(origin: Origin, amount: int)

  const DEBIT_ORIGIN_ORDER: seq<Origin> := [Bonus, Paid, AdminComp]

  /** The breakdown as a list, keeping every origin. */
  function AllLines(b: ByOrigin): seq<Line> {
    [Line(Bonus, b.bonus), Line(Paid, b.paid), Line(AdminComp, b.comp)]
  }

  /** `filter(amount > 0).map(row)`. */
  function RowsFrom(p: Purpose, lines: seq<Line>, debit: bool): seq<Row> {
    if lines == [] then []
    else
      var n := |lines| - 1;
      RowsFrom(p, lines[..n], debit) +
      (if lines[n].amount > 0 then [OriginRow(p, lines[n].origin, Signed(debit, lines[n].amount))] else [])
  }

  lemma {:induction false} RowsFromSnoc(p: Purpose, lines: seq<Line>, x: Line, debit: bool)
    ensures RowsFrom(p, lines + [x], debit) == RowsFrom(p, lines, debit) + OptionalRow(p, x.origin, x.amount, debit)
  {
    assert (lines + [x])[..|lines|] == lines;
  }

  /** The rows written for any list that agrees with a breakdown origin by origin, zero lines dropped. */
  lemma {:induction false} RowsFromAll(p: Purpose, b: ByOrigin, debit: bool)
    ensures RowsFrom(p, AllLines(b), debit) == RowsOf(p, b, debit)
  {
    RowsFromSnoc(p, [], Line(Bonus, b.bonus), debit);
    RowsFromSnoc(p, [Line(Bonus, b.bonus)], Line(Paid, b.paid), debit);
    RowsFromSnoc(p, [Line(Bonus, b.bonus), Line(Paid, b.paid)], Line(AdminComp, b.comp), debit);
    assert [Line(Bonus, b.bonus)] == [] + [Line(Bonus, b.bonus)];
    assert [Line(Bonus, b.bonus), Line(Paid, b.paid)] == [Line(Bonus, b.bonus)] + [Line(Paid, b.paid)];
    assert AllLines(b) == [Line(Bonus, b.bonus), Line(Paid, b.paid)] + [Line(AdminComp, b.comp)];
  }

  /** What the greedy loop has taken after the first `i` origins. */
  function TakenBy(i: nat, amount: int, available: ByOrigin): ByOrigin {
    var g := Greedy(amount, available);
    ByOrigin(if i >= 2 then g.paid else 0, if i >= 1 then g.bonus else 0, if i >= 3 then g.comp else 0)
  }

  /** `allocateAcrossOrigins`: the loop computes the greedy breakdown, and fails exactly when it is short. */
  method AllocateAcrossOrigins(amount: int, available: ByOrigin, ghost p: Purpose) returns (ok: bool, lines: seq<Line>)
    ensures ok <==> Greedy(amount, available).Total >= amount
    ensures RowsFrom(p, lines, true) == RowsOf(p, Greedy(amount, available), true)
    ensures forall x :: x in lines ==> x.amount > 0
  {
    var remaining := amount;
    lines := [];
    var i := 0;
    while i < 3
      invariant 0 <= i <= 3
      invariant remaining == amount - TakenBy(i, amount, available).Total
      invariant RowsFrom(p, lines, true) == RowsOf(p, TakenBy(i, amount, available), true)
      invariant forall x :: x in lines ==> x.amount > 0
    {
      if remaining <= 0 { break; }
      var origin := DEBIT_ORIGIN_ORDER[i];
      var take := Min(available.Of(origin), remaining);
      if take > 0 {
        RowsFromSnoc(p, lines, Line(origin, take), true);
        lines := lines + [Line(origin, take)];
        remaining := remaining - take;
      }
      i := i + 1;
    }
    ok := remaining <= 0;
  }

  /** `allocateProportionally`: floors, then the residual loop updating each line in place. */
  method AllocateProportionally(amount: int, refundable: ByOrigin, ghost p: Purpose) returns (lines: seq<Line>)
    ensures RowsFrom(p, lines, false) == RowsOf(p, Proportional(amount, refundable), false)
  {
    var total := refundable.Total;
    if total == 0 { return []; }
    if amount == total {
      RowsFromAll(p, refundable, false);
      return AllLines(refundable);
    }
    var raw := new int[3];
    for k := 0 to 3
      invariant forall j :: 0 <= j < k ==> raw[j] == Share(refundable.Of(DEBIT_ORIGIN_ORDER[j]), amount, total)
    {
      raw[k] := Share(refundable.Of(DEBIT_ORIGIN_ORDER[k]), amount, total);
    }
    var residual := amount - (raw[0] + raw[1] + raw[2]);
    ghost var b, pd, c := raw[0], raw[1], raw[2];
    ghost var addB := if residual <= 0 then 0 else Min(refundable.bonus - b, residual);
    ghost var r1 := residual - addB;
    ghost var addP := if r1 <= 0 then 0 else Min(refundable.paid - pd, r1);
    ghost var r2 := r1 - addP;
    ghost var addC := if r2 <= 0 then 0 else Min(refundable.comp - c, r2);
    var i := 0;
    ghost var r0 := residual;
    while i < 3
      invariant 0 <= i <= 3
      invariant residual == if i == 0 then r0 else if i == 1 then r1 else if i == 2 then r2 else r2 - addC
      invariant raw[0] == b + (if i >= 1 then addB else 0)
      invariant raw[1] == pd + (if i >= 2 then addP else 0)
      invariant raw[2] == c + (if i >= 3 then addC else 0)
    {
      if residual <= 0 { break; }
      var room := refundable.Of(DEBIT_ORIGIN_ORDER[i]) - raw[i];
      var add := Min(room, residual);
      raw[i] := raw[i] + add;
      residual := residual - add;
      i := i + 1;
    }
    var result := ByOrigin(raw[1], raw[0], raw[2]);
    assert result == Proportional(amount, refundable);
    RowsFromAll(p, result, false);
    lines := AllLines(result);
  }

  class WalletService {
    var rows: seq<Row>
    var holds: seq<Hold>

    function Value(): Ledger
      reads this
    {
      Ledger(rows, holds)
    }

    constructor ()
      ensures Value() == EMPTY
    {
      rows, holds := [], [];
    }

    method CreditFromPackPurchase(w: nat, paidCents: int, bonusCents: int) returns (r: Result)
      modifies this
      ensures (Value(), r) == Apply(old(Value()), Op.CreditFromPackPurchase(w, paidCents, bonusCents))
    {
      var before := rows;
      if paidCents > 0 {
        rows := rows + [OriginRow(Purpose(w, CreditPackPurchase, None, None, None), Paid, paidCents)];
      }
      if bonusCents > 0 {
        rows := rows + [OriginRow(Purpose(w, CreditPackBonus, None, None, None), Bonus, bonusCents)];
      }
      r := Done;
      assert rows == before + PackRows(w, paidCents, bonusCents);
    }

    method CreditAdmin(w: nat, amount: int) returns (r: Result)
      modifies this
      ensures (Value(), r) == Apply(old(Value()), CreditAdminOp(w, amount))
    {
      if amount <= 0 { return ValidationFailed; }
      var row := OriginRow(Purpose(w, WalletLedger.CreditAdmin, None, None, None), AdminComp, amount);
      rows := rows + [row];
      r := Done;
      assert [row] == RowsOf(Purpose(w, WalletLedger.CreditAdmin, None, None, None), ByOrigin(0, 0, amount), false);
    }

    /** The body shared by the four direct debits. */
    method DebitDirectly(p: Purpose, amount: int) returns (r: Result)
      modifies this
      ensures (Value(), r) == Debit(old(Value()), p, amount)
    {
      var available := Available(Value(), p.wallet);
      if available < amount { return InsufficientBalance(available, amount); }
      var ok, lines := AllocateAcrossOrigins(amount, Balance(Value(), p.wallet), p);
      if !ok { return InternalInconsistency; }
      rows := rows + RowsFrom(p, lines, true);
      r := Done;
    }

    method DebitAdmin(w: nat, amount: int) returns (r: Result)
      modifies this
      ensures (Value(), r) == Apply(old(Value()), Op.DebitAdmin(w, amount))
    {
      if amount <= 0 { return ValidationFailed; }
      r := DebitDirectly(Purpose(w, Adjustment, None, None, None), amount);
    }

    method DebitForBooking(w: nat, booking: nat, amount: int) returns (r: Result)
      modifies this
      ensures (Value(), r) == Apply(old(Value()), Op.DebitForBooking(w, booking, amount))
    {
      r := DebitDirectly(Purpose(w, DebitBooking, Some(booking), None, None), amount);
    }

    method DebitForNextoreAccount(w: nat, account: nat, amount: int) returns (r: Result)
      modifies this
      ensures (Value(), r) == Apply(old(Value()), DebitForAccount(w, account, amount))
    {
      r := DebitDirectly(Purpose(w, DebitNextoreAccount, None, Some(account), None), amount);
    }

    method RefundFrom(p: Purpose, amount: int, refundable: ByOrigin) returns (r: Result)
      modifies this
      ensures (Value(), r) == Refund(old(Value()), p, amount, refundable)
    {
      if amount > refundable.Total { return ValidationFailed; }
      var lines := AllocateProportionally(amount, refundable, p);
      rows := rows + RowsFrom(p, lines, false);
      r := Done;
    }

    method RefundForBooking(w: nat, booking: nat, amount: int) returns (r: Result)
      modifies this
      ensures (Value(), r) == Apply(old(Value()), Op.RefundForBooking(w, booking, amount))
    {
      var refundable := Minus(BookingDebits(Value(), booking), BookingRefunds(Value(), booking));
      r := RefundFrom(Purpose(w, RefundBooking, Some(booking), None, None), amount, refundable);
    }

    method RefundForNextoreAccount(w: nat, account: nat, amount: int) returns (r: Result)
      modifies this
      ensures (Value(), r) == Apply(old(Value()), RefundForAccount(w, account, amount))
    {
      var refundable := Minus(AccountDebits(Value(), account), AccountRefunds(Value(), account));
      r := RefundFrom(Purpose(w, RefundNextoreAccount, None, Some(account), None), amount, refundable);
    }

    method CreateHold(w: nat, booking: nat, amount: int) returns (r: Result, id: nat)
      modifies this
      ensures (Value(), r) == Apply(old(Value()), Op.CreateHold(w, booking, amount))
      ensures id == |old(holds)|
    {
      id := |holds|;
      var available := Available(Value(), w);
      if available < amount { return InsufficientBalance(available, amount), id; }
      var h := Hold(w, booking, amount, Active);
      holds := holds + [h];
      rows := rows + [AuditRow(h, id, HoldCreated, amount)];
      r := Done;
    }

    /** `transitionHold`: a hold leaves ACTIVE at most once. */
    method TransitionHold(id: nat, to: HoldStatus) returns (moved: bool)
      modifies this`holds
      ensures moved <==> id < |old(holds)| && old(holds)[id].status.Active?
      ensures holds == if moved then old(holds)[id := old(holds)[id].(status := to)] else old(holds)
    {
      moved := id < |holds| && holds[id].status.Active?;
      if moved { holds := holds[id := holds[id].(status := to)]; }
    }

    method ReleaseHold(id: nat) returns (r: Result)
      modifies this
      ensures (Value(), r) == Apply(old(Value()), Op.ReleaseHold(id))
    {
      if id >= |holds| { return NotFound; }
      var h := holds[id];
      var moved := TransitionHold(id, Released);
      if moved { rows := rows + [AuditRow(h, id, HoldReleased, h.amount)]; }
      r := Done;
    }

    method ReleaseHoldPartially(id: nat, amount: int) returns (r: Result)
      modifies this
      ensures (Value(), r) == Apply(old(Value()), Op.ReleaseHoldPartially(id, amount))
    {
      if id >= |holds| { return NotFound; }
      var h := holds[id];
      if !h.status.Active? { return Done; }
      if amount >= h.amount {
        r := ReleaseHold(id);
        return;
      }
      holds := holds[id := h.(amount := h.amount - amount)];
      rows := rows + [AuditRow(h, id, HoldReleased, amount)];
      r := Done;
    }

    method CaptureHold(id: nat) returns (r: Result)
      modifies this
      ensures (Value(), r) == Apply(old(Value()), Op.CaptureHold(id))
    {
      if id >= |holds| { return NotFound; }
      var h := holds[id];
      var moved := TransitionHold(id, Captured);
      if !moved { return Done; }
      var p := Purpose(h.wallet, DebitBooking, Some(h.booking), None, Some(id));
      var ok, lines := AllocateAcrossOrigins(h.amount, Balance(Value(), h.wallet), p);
      if !ok { return InternalInconsistency; }
      rows := rows + RowsFrom(p, lines, true);
      rows := rows + [AuditRow(h, id, HoldCaptured, h.amount)];
      r := Done;
      assert rows == old(rows) + (RowsFrom(p, lines, true) + [AuditRow(h, id, HoldCaptured, h.amount)]);
    }
  }
}
