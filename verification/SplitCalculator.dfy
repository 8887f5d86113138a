/** Splitting a price into integer cents: `splitEvenly` and `computeSplitShares`. */
module SplitCalculator {
  import opened Common

  function SumInts(xs: seq<int>): int {
    if xs == [] then 0 else SumInts(xs[..|xs| - 1]) + xs[|xs| - 1]
  }

  /** Floor division, the leftover cents going to the first parts; `None` where the source throws. */
  function SplitEvenly(total: int, parts: int): Option<seq<int>> {
    if parts <= 0 then None
    else
      var base := total / parts;
      var remainder := total - base * parts;
      Some(seq(parts, i => if i < remainder then base + 1 else base))
  }

  datatype Allocation = Organizer | ProRata

  datatype SplitShare = SplitShare(isOrganizer: bool, base: int, fee: int) {
    const Total: int := base + fee
  }

  /** Who carries the service fee: the organiser alone, or everybody alike. */
  function FeeParts(count: int, serviceFee: int, allocation: Allocation): seq<int>
    requires count > 0
  {
    if allocation.Organizer? then seq(count, i => if i == 0 then serviceFee else 0)
      else SplitEvenly(serviceFee, count).value
  }

  function ComputeSplitShares(basePrice: int, count: int, serviceFee: int, allocation: Allocation)
      : Option<seq<SplitShare>>
  {
    if count <= 0 then None
    else
      var bases := SplitEvenly(basePrice, count).value;
      var fees := FeeParts(count, serviceFee, allocation);
      Some(seq(count, i requires 0 <= i < count => SplitShare(i == 0, bases[i], fees[i])))
  }

  function ShareTotals(shares: seq<SplitShare>): seq<int> {
    seq(|shares|, i requires 0 <= i < |shares| => shares[i].Total)
  }

  function GuaranteedCents(shares: seq<SplitShare>): int
    requires shares != []
  {
    SumInts(ShareTotals(shares[1..]))
  }

  lemma {:induction false} SumStep(xs: seq<int>, base: int, remainder: int)
    requires forall i :: 0 <= i < |xs| ==> xs[i] == if i < remainder then base + 1 else base
    requires 0 <= remainder
    ensures SumInts(xs) == base * |xs| + Min(|xs|, remainder)
  {
    if xs != [] {
      SumStep(xs[..|xs| - 1], base, remainder);
      assert base * |xs| == base * (|xs| - 1) + base;
    }
  }

  /**
   Nothing is lost or created, for any total, negative ones included; parts differ by one cent at most, larger ones
   first.
   */
  lemma SplitIsExact(total: int, parts: int)
    requires parts > 0
    ensures var xs := SplitEvenly(total, parts).value;
            && |xs| == parts && SumInts(xs) == total
            && forall i, j :: 0 <= i <= j < parts ==> xs[j] <= xs[i] <= xs[j] + 1
  {
    var base := total / parts;
    var xs := SplitEvenly(total, parts).value;
    assert total == base * parts + total % parts;
    SumStep(xs, base, total - base * parts);
  }

  /** An even split is the only one: same length, same sum, within one cent, larger parts first. */
  lemma {:induction false} SplitIsUnique(total: int, xs: seq<int>)
    requires xs != [] && SumInts(xs) == total
    requires forall i, j :: 0 <= i <= j < |xs| ==> xs[j] <= xs[i] <= xs[j] + 1
    ensures SplitEvenly(total, |xs|) == Some(xs)
  {
    var n := |xs|;
    var low := xs[n - 1];
    var r := CountAbove(xs, low);
    SumStep(xs, low, r);
    assert total == low * n + r && 0 <= r < n;
    QuotientIs(total, n, low, r);
    assert SplitEvenly(total, n).value == xs;
  }

  lemma QuotientIs(total: int, n: int, q: int, r: int)
    requires n > 0 && total == q * n + r && 0 <= r < n
    ensures total / n == q
  {
    var d := total / n - q;
    assert total == (total / n) * n + total % n;
    assert d * n == (total / n) * n - q * n;
    assert d >= 1 ==> d * n >= n;
    assert d <= -1 ==> d * n <= -n;
  }

  /** How many leading parts got the extra cent. */
  lemma {:induction false} CountAbove(xs: seq<int>, low: int) returns (r: nat)
    requires xs != [] && low <= xs[|xs| - 1]
    requires forall i, j :: 0 <= i <= j < |xs| ==> xs[j] <= xs[i]
    requires forall i :: 0 <= i < |xs| ==> low <= xs[i] <= low + 1
    ensures r <= |xs| && forall i :: 0 <= i < |xs| ==> xs[i] == if i < r then low + 1 else low
    ensures xs[|xs| - 1] == low ==> r < |xs|
  {
    r := 0;
    while r < |xs| && xs[r] == low + 1
      invariant r <= |xs| && forall i :: 0 <= i < r ==> xs[i] == low + 1
    {
      r := r + 1;
    }
  }

  lemma {:induction false} SumOfSums(xs: seq<int>, ys: seq<int>, zs: seq<int>)
    requires |xs| == |ys| == |zs| && forall i :: 0 <= i < |xs| ==> zs[i] == xs[i] + ys[i]
    ensures SumInts(zs) == SumInts(xs) + SumInts(ys)
  {
    if xs != [] { SumOfSums(xs[..|xs| - 1], ys[..|ys| - 1], zs[..|zs| - 1]); }
  }

  lemma {:induction false} SumFrom(xs: seq<int>)
    requires xs != []
    ensures SumInts(xs) == xs[0] + SumInts(xs[1..])
  {
    if |xs| == 1 {
      assert xs[..0] == [] && xs[1..] == [];
    } else {
      var n := |xs| - 1;
      SumFrom(xs[..n]);
      assert xs[..n][1..] == xs[1..][..n - 1];
    }
  }

  lemma {:induction false} SumZeros(xs: seq<int>)
    requires forall i :: 0 <= i < |xs| ==> xs[i] == 0
    ensures SumInts(xs) == 0
  {
    if xs != [] { SumZeros(xs[..|xs| - 1]); }
  }

  lemma {:induction false} FeePartsAddUp(count: int, serviceFee: int, allocation: Allocation)
    requires count > 0
    ensures |FeeParts(count, serviceFee, allocation)| == count
    ensures SumInts(FeeParts(count, serviceFee, allocation)) == serviceFee
  {
    var fees := FeeParts(count, serviceFee, allocation);
    if allocation.Organizer? {
      SumFrom(fees);
      SumZeros(fees[1..]);
    } else {
      SplitIsExact(serviceFee, count);
    }
  }

  /**
   The organiser's share plus what must be guaranteed is the court price plus the service fee,
   whoever carries the fee; only the first share is the organiser's.
   */
  lemma {:induction false} SharesAddUp(basePrice: int, count: int, serviceFee: int, allocation: Allocation)
    requires count > 0
    ensures var shares := ComputeSplitShares(basePrice, count, serviceFee, allocation).value;
            && |shares| == count
            && shares[0].Total + GuaranteedCents(shares) == basePrice + serviceFee
            && SumInts(ShareTotals(shares)) == basePrice + serviceFee
            && forall i :: 0 <= i < count ==> (shares[i].isOrganizer <==> i == 0)
  {
    hide SumInts;
    var shares := ComputeSplitShares(basePrice, count, serviceFee, allocation).value;
    SplitIsExact(basePrice, count);
    FeePartsAddUp(count, serviceFee, allocation);
    SumOfSums(SplitEvenly(basePrice, count).value, FeeParts(count, serviceFee, allocation), ShareTotals(shares));
    SumFrom(ShareTotals(shares));
    assert ShareTotals(shares)[1..] == ShareTotals(shares[1..]);
  }

  function Bases(shares: seq<SplitShare>): seq<int> {
    seq(|shares|, i requires 0 <= i < |shares| => shares[i].base)
  }

  function Fees(shares: seq<SplitShare>): seq<int> {
    seq(|shares|, i requires 0 <= i < |shares| => shares[i].fee)
  }

  /** They add up to `total` and differ by one cent at most, larger ones first. */
  predicate IsEven(xs: seq<int>, total: int) {
    SumInts(xs) == total && forall i, j :: 0 <= i <= j < |xs| ==> xs[j] <= xs[i] <= xs[j] + 1
  }

  /** One share each, the first the organiser's; the price evenly; the fee on the organiser alone, or evenly. */
  predicate IsFair(shares: seq<SplitShare>, basePrice: int, serviceFee: int, allocation: Allocation) {
    && (forall i :: 0 <= i < |shares| ==> (shares[i].isOrganizer <==> i == 0))
    && IsEven(Bases(shares), basePrice)
    && match allocation
       case Organizer => forall i :: 0 <= i < |shares| ==> shares[i].fee == if i == 0 then serviceFee else 0
       case ProRata => IsEven(Fees(shares), serviceFee)
  }

  /** Refused exactly without participants; otherwise every participant's price and fee are fair. */
  lemma {:induction false} SharesAreFair(basePrice: int, count: int, serviceFee: int, allocation: Allocation)
    ensures var r := ComputeSplitShares(basePrice, count, serviceFee, allocation);
            && (r == None <==> count <= 0)
            && (r.Some? ==> |r.value| == count && IsFair(r.value, basePrice, serviceFee, allocation))
  {
    hide SumInts;
    if count > 0 {
      var shares := ComputeSplitShares(basePrice, count, serviceFee, allocation).value;
      SplitIsExact(basePrice, count);
      SplitIsExact(serviceFee, count);
      assert Bases(shares) == SplitEvenly(basePrice, count).value;
      if allocation.ProRata? { assert Fees(shares) == SplitEvenly(serviceFee, count).value; }
    }
  }

  /** That leaves only one list. */
  lemma {:induction false} FairIsUnique(shares: seq<SplitShare>, basePrice: int, serviceFee: int,
      allocation: Allocation)
    requires shares != [] && IsFair(shares, basePrice, serviceFee, allocation)
    ensures ComputeSplitShares(basePrice, |shares|, serviceFee, allocation) == Some(shares)
  {
    hide SumInts;
    SplitIsUnique(basePrice, Bases(shares));
    if allocation.ProRata? { SplitIsUnique(serviceFee, Fees(shares)); }
    var r := ComputeSplitShares(basePrice, |shares|, serviceFee, allocation).value;
    forall i | 0 <= i < |shares| ensures r[i] == shares[i] {
      assert Bases(shares)[i] == shares[i].base && Fees(shares)[i] == shares[i].fee;
    }
    assert r == shares;
  }

  /** No participant is ever asked for a negative amount. */
  lemma {:induction false} SharesAreNonNegative(basePrice: int, count: int, serviceFee: int, allocation: Allocation)
    requires count > 0 && basePrice >= 0 && serviceFee >= 0
    ensures forall s :: s in ComputeSplitShares(basePrice, count, serviceFee, allocation).value ==>
            s.base >= 0 && s.fee >= 0
  {
    FloorNonNegative(basePrice, count);
    FloorNonNegative(serviceFee, count);
  }

  lemma FloorNonNegative(total: int, parts: int)
    requires parts > 0 && total >= 0
    ensures total / parts >= 0
  {
  }
}
