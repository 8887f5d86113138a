/**
 Free slots of one court on one local day, in minutes since midnight. The result of the loop is characterised
 completely: it is the only list of offers with rising starts that holds exactly the (start, duration) pairs the rules
 allow.
 */
module SlotCalculator {
  import opened Common

  datatype MinuteRange = MinuteRange(startMinute: int, endMinute: int)

  datatype DurationWindow = DurationWindow(range: MinuteRange, allowed: seq<int>)

  datatype Input = Input(openingWindows: seq<MinuteRange>, durationWindows: seq<DurationWindow>,
      blockedRanges: seq<MinuteRange>, stepMinutes: int)

  datatype Slot = Slot(startMinute: int, allowed: seq<int>)

  predicate RangesOverlap(a: MinuteRange, b: MinuteRange) {
    a.startMinute < b.endMinute && b.startMinute < a.endMinute
  }

  predicate Within(range: MinuteRange, w: MinuteRange) {
    w.startMinute <= range.startMinute && range.endMinute <= w.endMinute
  }

  predicate WithinAny(range: MinuteRange, windows: seq<MinuteRange>) {
    exists k :: 0 <= k < |windows| && Within(range, windows[k])
  }

  predicate Blocked(range: MinuteRange, blocked: seq<MinuteRange>) {
    exists k :: 0 <= k < |blocked| && RangesOverlap(range, blocked[k])
  }

  function Range(start: int, duration: int): MinuteRange { MinuteRange(start, start + duration) }

  function DayStart(windows: seq<MinuteRange>): int {
    if windows == [] then 0 else Min(DayStart(windows[..|windows| - 1]), windows[|windows| - 1].startMinute)
  }

  function DayEnd(windows: seq<MinuteRange>): int {
    if windows == [] then 24 * 60 else Max(DayEnd(windows[..|windows| - 1]), windows[|windows| - 1].endMinute)
  }

  // ---------------------------------------------------------------------
  // What the result must be
  // ---------------------------------------------------------------------

  ghost predicate OnGrid(i: Input, start: int) {
    start < DayEnd(i.openingWindows) && exists k: nat :: start == GridPoint(i, k)
  }

  function GridPoint(i: Input, k: nat): int { DayStart(i.openingWindows) + k * i.stepMinutes }

  predicate AllowedHere(windows: seq<DurationWindow>, start: int, duration: int) {
    exists k :: 0 <= k < |windows| && windows[k].range.startMinute <= start < windows[k].range.endMinute
      && duration in windows[k].allowed
  }

  predicate Fits(i: Input, start: int, duration: int) {
    WithinAny(Range(start, duration), i.openingWindows) && !Blocked(Range(start, duration), i.blockedRanges)
  }

  ghost predicate Offerable(i: Input, start: int, duration: int) {
    OnGrid(i, start) && AllowedHere(i.durationWindows, start, duration) && Fits(i, start, duration)
  }

  predicate Rising(xs: seq<int>) { forall i, j :: 0 <= i < j < |xs| ==> xs[i] < xs[j] }

  predicate Offers(slots: seq<Slot>, start: int, duration: int) {
    exists k :: 0 <= k < |slots| && slots[k].startMinute == start && duration in slots[k].allowed
  }

  predicate Shaped(slots: seq<Slot>) {
    && (forall i, j :: 0 <= i < j < |slots| ==> slots[i].startMinute < slots[j].startMinute)
    && forall k :: 0 <= k < |slots| ==> slots[k].allowed != [] && Rising(slots[k].allowed)
  }

  ghost predicate IsResult(i: Input, slots: seq<Slot>) {
    Shaped(slots) && forall start, duration :: Offers(slots, start, duration) <==> Offerable(i, start, duration)
  }

  // ---------------------------------------------------------------------
  // The duration set
  // ---------------------------------------------------------------------

  /** `Set.add`, in insertion order. */
  function Add(xs: seq<int>, d: int): seq<int> {
    if d in xs then xs else xs + [d]
  }

  predicate NoRepeats(xs: seq<int>) { forall i, j :: 0 <= i < j < |xs| ==> xs[i] != xs[j] }

  function Insert(xs: seq<int>, d: int): seq<int> {
    if xs == [] || xs[|xs| - 1] < d then xs + [d] else Insert(xs[..|xs| - 1], d) + [xs[|xs| - 1]]
  }

  function Sort(xs: seq<int>): seq<int> {
    if xs == [] then [] else Insert(Sort(xs[..|xs| - 1]), xs[|xs| - 1])
  }

  predicate AllBelow(xs: seq<int>, limit: int) { forall k :: 0 <= k < |xs| ==> xs[k] < limit }

  lemma {:induction false} InsertIn(xs: seq<int>, d: int, e: int)
    ensures e in Insert(xs, d) <==> e in xs || e == d
  {
    if !(xs == [] || xs[|xs| - 1] < d) {
      var n := |xs| - 1;
      InsertIn(xs[..n], d, e);
      assert xs == xs[..n] + [xs[n]];
    }
  }

  lemma {:induction false} InsertBelow(xs: seq<int>, d: int, limit: int)
    requires AllBelow(xs, limit) && d < limit
    ensures AllBelow(Insert(xs, d), limit)
  {
    if !(xs == [] || xs[|xs| - 1] < d) { InsertBelow(xs[..|xs| - 1], d, limit); }
  }

  lemma {:induction false} InsertRises(xs: seq<int>, d: int)
    requires Rising(xs) && d !in xs
    ensures Rising(Insert(xs, d))
  {
    if !(xs == [] || xs[|xs| - 1] < d) {
      var n := |xs| - 1;
      assert xs[n] in xs;
      InsertRises(xs[..n], d);
      InsertBelow(xs[..n], d, xs[n]);
    }
  }

  lemma {:induction false} SortIn(xs: seq<int>, e: int)
    ensures e in Sort(xs) <==> e in xs
  {
    hide Insert;
    if xs != [] {
      var n := |xs| - 1;
      SortIn(xs[..n], e);
      InsertIn(Sort(xs[..n]), xs[n], e);
      assert xs == xs[..n] + [xs[n]];
    }
  }

  lemma {:induction false} SortRises(xs: seq<int>)
    requires NoRepeats(xs)
    ensures Rising(Sort(xs))
  {
    hide Insert;
    if xs != [] {
      var n := |xs| - 1;
      SortRises(xs[..n]);
      SortIn(xs[..n], xs[n]);
      InsertRises(Sort(xs[..n]), xs[n]);
    }
  }

  /** The nested loops over the windows that cover `start`. */
  method AllowedDurationsAt(start: int, windows: seq<DurationWindow>) returns (r: seq<int>)
    ensures Rising(r) && forall d :: d in r <==> AllowedHere(windows, start, d)
  {
    hide Sort;
    var durations: seq<int> := [];
    for k := 0 to |windows|
      invariant NoRepeats(durations)
      invariant forall d :: d in durations <==> AllowedHere(windows[..k], start, d)
    {
      var w := windows[k];
      ghost var before := durations;
      if w.range.startMinute <= start < w.range.endMinute {
        for j := 0 to |w.allowed|
          invariant NoRepeats(durations)
          invariant forall d :: d in durations <==> d in before || d in w.allowed[..j]
        {
          durations := Add(durations, w.allowed[j]);
        }
        assert w.allowed[..|w.allowed|] == w.allowed;
      }
      forall d ensures AllowedHere(windows[..k + 1], start, d) <==>
                       AllowedHere(windows[..k], start, d)
                         || (w.range.startMinute <= start < w.range.endMinute && d in w.allowed) {
        AllowedSplit(windows, start, d, k);
      }
    }
    assert windows[..|windows|] == windows;
    r := Sort(durations);
    SortRises(durations);
    forall d ensures d in r <==> d in durations { SortIn(durations, d); }
  }

  lemma {:induction false} AllowedSplit(windows: seq<DurationWindow>, start: int, d: int, k: nat)
    requires k < |windows|
    ensures AllowedHere(windows[..k + 1], start, d) <==>
            AllowedHere(windows[..k], start, d)
            || (windows[k].range.startMinute <= start < windows[k].range.endMinute && d in windows[k].allowed)
  {
    if AllowedHere(windows[..k], start, d) {
      var m :| 0 <= m < k && windows[..k][m].range.startMinute <= start < windows[..k][m].range.endMinute
        && d in windows[..k][m].allowed;
      assert windows[..k + 1][m] == windows[..k][m];
    }
    if AllowedHere(windows[..k + 1], start, d) {
      var m :| 0 <= m < k + 1 && windows[..k + 1][m].range.startMinute <= start < windows[..k + 1][m].range.endMinute
        && d in windows[..k + 1][m].allowed;
      if m < k { assert windows[..k][m] == windows[..k + 1][m]; }
    }
    if windows[k].range.startMinute <= start < windows[k].range.endMinute && d in windows[k].allowed {
      assert windows[..k + 1][k] == windows[k];
    }
  }

  /** `filter`: the durations that fit, in order. */
  function Fitting(i: Input, start: int, durations: seq<int>): seq<int> {
    if durations == [] then []
    else
      var n := |durations| - 1;
      Fitting(i, start, durations[..n]) + (if Fits(i, start, durations[n]) then [durations[n]] else [])
  }

  lemma {:induction false} FittingFacts(i: Input, start: int, durations: seq<int>)
    requires Rising(durations)
    ensures var r := Fitting(i, start, durations);
            Rising(r) && forall d :: d in r <==> d in durations && Fits(i, start, d)
  {
    if durations != [] {
      var n := |durations| - 1;
      FittingFacts(i, start, durations[..n]);
      assert durations == durations[..n] + [durations[n]];
      var q := Fitting(i, start, durations[..n]);
      forall k | 0 <= k < |q| ensures q[k] < durations[n] {
        assert q[k] in q;
        assert q[k] in durations[..n];
      }
    }
  }

  // ---------------------------------------------------------------------
  // The loop over the day
  // ---------------------------------------------------------------------

  /** No grid point lies strictly between two neighbours. */
  lemma {:induction false} NoPointBetween(i: Input, k: nat, start: int)
    requires i.stepMinutes > 0 && OnGrid(i, start) && start < GridPoint(i, k + 1)
    ensures start <= GridPoint(i, k)
  {
    var j: nat :| start == GridPoint(i, j);
    if j > k {
      Scale(k + 1, j, i.stepMinutes);
    } else {
      Scale(j, k, i.stepMinutes);
    }
  }

  lemma {:induction false} Scale(a: nat, b: nat, step: int)
    requires a <= b && step > 0
    ensures a * step <= b * step
  {
    assert b * step - a * step == (b - a) * step;
  }

  /** The offers found so far are exactly the right ones before `limit`. */
  ghost predicate ExactBefore(i: Input, slots: seq<Slot>, limit: int) {
    forall start, duration :: Offers(slots, start, duration) <==> Offerable(i, start, duration) && start < limit
  }

  lemma {:induction false} OffersSnoc(slots: seq<Slot>, x: Slot, start: int, duration: int)
    ensures Offers(slots + [x], start, duration) <==>
            Offers(slots, start, duration) || (x.startMinute == start && duration in x.allowed)
  {
    var r := slots + [x];
    if Offers(slots, start, duration) {
      var k :| 0 <= k < |slots| && slots[k].startMinute == start && duration in slots[k].allowed;
      assert r[k].startMinute == start && duration in r[k].allowed;
    }
    if x.startMinute == start && duration in x.allowed { assert r[|slots|].startMinute == start; }
  }

  /** One round of the loop. */
  lemma {:induction false} RoundIsExact(i: Input, slots: seq<Slot>, k: nat, start: int, candidates: seq<int>,
      slots': seq<Slot>)
    requires i.stepMinutes > 0 && start == GridPoint(i, k) < DayEnd(i.openingWindows) && ExactBefore(i, slots, start)
    requires Rising(candidates) && forall d :: d in candidates <==> AllowedHere(i.durationWindows, start, d)
    requires var valid := Fitting(i, start, candidates); slots' == if valid != [] then slots + [Slot(start, valid)]
             else slots
    ensures ExactBefore(i, slots', GridPoint(i, k + 1))
  {
    hide AllowedHere, Fits, Offers, DayStart, DayEnd, GridPoint;
    var valid := Fitting(i, start, candidates);
    FittingFacts(i, start, candidates);
    assert OnGrid(i, start) && start < GridPoint(i, k + 1) by { NextIsLater(i, k); }
    forall s, d ensures Offers(slots', s, d) <==> Offerable(i, s, d) && s < GridPoint(i, k + 1) {
      if valid != [] { OffersSnoc(slots, Slot(start, valid), s, d); }
      assert Offers(slots, s, d) <==> Offerable(i, s, d) && s < start;
      assert d in valid <==> AllowedHere(i.durationWindows, start, d) && Fits(i, start, d);
      if OnGrid(i, s) && s < GridPoint(i, k + 1) { NoPointBetween(i, k, s); }
    }
  }

  lemma {:induction false} NextIsLater(i: Input, k: nat)
    requires i.stepMinutes > 0
    ensures GridPoint(i, k + 1) == GridPoint(i, k) + i.stepMinutes
  {
    assert (k + 1) * i.stepMinutes == k * i.stepMinutes + i.stepMinutes;
  }

  method ComputeAvailableSlots(i: Input) returns (slots: seq<Slot>)
    requires i.stepMinutes > 0
    ensures IsResult(i, slots)
  {
    hide AllowedHere, Fits, Offers, DayStart, DayEnd, Fitting, GridPoint;
    slots := [];
    var dayStart, dayEnd := DayStart(i.openingWindows), DayEnd(i.openingWindows);
    var start := dayStart;
    ghost var n: nat := 0;
    NothingYet(i);
    while start < dayEnd
      invariant start == GridPoint(i, n)
      invariant Shaped(slots) && forall k :: 0 <= k < |slots| ==> slots[k].startMinute < start
      invariant ExactBefore(i, slots, start)
    {
      var candidates := AllowedDurationsAt(start, i.durationWindows);
      var valid := Fitting(i, start, candidates);
      FittingFacts(i, start, candidates);
      ghost var before := slots;
      if valid != [] { slots := slots + [Slot(start, valid)]; }
      RoundIsExact(i, before, n, start, candidates, slots);
      NextIsLater(i, n);
      start, n := start + i.stepMinutes, n + 1;
    }
  }

  lemma {:induction false} NothingYet(i: Input)
    requires i.stepMinutes > 0
    ensures GridPoint(i, 0) == DayStart(i.openingWindows) && ExactBefore(i, [], GridPoint(i, 0))
  {
    hide DayStart, DayEnd, AllowedHere, Fits;
    forall start | OnGrid(i, start) ensures start >= GridPoint(i, 0) {
      var k: nat :| start == GridPoint(i, k);
      Scale(0, k, i.stepMinutes);
    }
  }

  // ---------------------------------------------------------------------
  // What the characterisation gives
  // ---------------------------------------------------------------------

  lemma {:induction false} RisingIsUnique(xs: seq<int>, ys: seq<int>)
    requires Rising(xs) && Rising(ys) && forall x :: x in xs <==> x in ys
    ensures xs == ys
  {
    if xs != [] { assert xs[0] in xs; }
    if ys != [] { assert ys[0] in ys; }
    if xs != [] {
      var n, m := |xs| - 1, |ys| - 1;
      assert xs[n] in ys && ys[m] in xs;
      assert xs[n] == ys[m];
      forall x ensures x in xs[..n] <==> x in ys[..m] {
        DropLast(xs, x);
        DropLast(ys, x);
      }
      RisingIsUnique(xs[..n], ys[..m]);
      assert xs == xs[..n] + [xs[n]] && ys == ys[..m] + [ys[m]];
    }
  }

  lemma {:induction false} DropLast(xs: seq<int>, x: int)
    requires Rising(xs) && xs != []
    ensures x in xs[..|xs| - 1] <==> x in xs && x != xs[|xs| - 1]
  {
    var n := |xs| - 1;
    if x in xs && x != xs[n] {
      var k :| 0 <= k < |xs| && xs[k] == x;
      assert xs[..n][k] == x;
    }
  }

  function Starts(slots: seq<Slot>): seq<int> { seq(|slots|, k requires 0 <= k < |slots| => slots[k].startMinute) }

  lemma {:induction false} StartsOffered(slots: seq<Slot>, s: int)
    requires Shaped(slots)
    ensures s in Starts(slots) <==> exists d :: Offers(slots, s, d)
  {
    if s in Starts(slots) {
      var k :| 0 <= k < |slots| && Starts(slots)[k] == s;
      assert Offers(slots, s, slots[k].allowed[0]);
    }
    if exists d :: Offers(slots, s, d) {
      var d :| Offers(slots, s, d);
      var k :| 0 <= k < |slots| && slots[k].startMinute == s && d in slots[k].allowed;
      assert Starts(slots)[k] == s;
    }
  }

  lemma {:induction false} OffersAt(slots: seq<Slot>, k: nat, d: int)
    requires Shaped(slots) && k < |slots|
    ensures Offers(slots, slots[k].startMinute, d) <==> d in slots[k].allowed
  {
    if Offers(slots, slots[k].startMinute, d) {
      var j :| 0 <= j < |slots| && slots[j].startMinute == slots[k].startMinute && d in slots[j].allowed;
      assert j == k;
    }
  }

  /** The rules determine the result completely. */
  lemma {:induction false} ResultIsUnique(i: Input, a: seq<Slot>, b: seq<Slot>)
    requires i.stepMinutes > 0 && IsResult(i, a) && IsResult(i, b)
    ensures a == b
  {
    hide Offers, Offerable;
    forall s ensures s in Starts(a) <==> s in Starts(b) {
      StartsOffered(a, s);
      StartsOffered(b, s);
    }
    RisingIsUnique(Starts(a), Starts(b));
    assert |a| == |Starts(a)| == |b|;
    forall k | 0 <= k < |a| ensures a[k] == b[k] {
      assert Starts(a)[k] == Starts(b)[k];
      forall d ensures d in a[k].allowed <==> d in b[k].allowed {
        OffersAt(a, k, d);
        OffersAt(b, k, d);
      }
      RisingIsUnique(a[k].allowed, b[k].allowed);
    }
  }

  /** Blocking more time never creates an offer. */
  lemma {:induction false} BlockingNeverAdds(i: Input, more: seq<MinuteRange>, a: seq<Slot>, b: seq<Slot>, start: int,
      duration: int)
    requires i.stepMinutes > 0 && (forall r :: r in i.blockedRanges ==> r in more)
    requires IsResult(i, a) && IsResult(i.(blockedRanges := more), b) && Offers(b, start, duration)
    ensures Offers(a, start, duration)
  {
    hide Offers, AllowedHere, WithinAny, DayStart, DayEnd;
    assert Offerable(i.(blockedRanges := more), start, duration);
    BlockedGrows(Range(start, duration), i.blockedRanges, more);
    var k: nat :| start == GridPoint(i.(blockedRanges := more), k);
    assert start == GridPoint(i, k);
    assert Offerable(i, start, duration);
  }

  lemma {:induction false} BlockedGrows(range: MinuteRange, few: seq<MinuteRange>, more: seq<MinuteRange>)
    requires forall r :: r in few ==> r in more
    ensures Blocked(range, few) ==> Blocked(range, more)
  {
    if Blocked(range, few) {
      var k :| 0 <= k < |few| && RangesOverlap(range, few[k]);
      assert few[k] in more;
    }
  }

  /** No offer touches a blocked minute. */
  lemma {:induction false} OfferAvoidsBlocked(i: Input, slots: seq<Slot>, start: int, duration: int, k: nat)
    requires i.stepMinutes > 0 && IsResult(i, slots) && Offers(slots, start, duration) && k < |i.blockedRanges|
    ensures !RangesOverlap(Range(start, duration), i.blockedRanges[k])
  {
    hide Offers, AllowedHere, WithinAny, DayStart, DayEnd;
    assert Offerable(i, start, duration);
  }

  // ---------------------------------------------------------------------
  // The rules, minute by minute
  // ---------------------------------------------------------------------

  predicate Holds(range: MinuteRange, minute: int) { range.startMinute <= minute < range.endMinute }

  /** Two ranges with a minute of their own overlap exactly when they share one. */
  lemma {:induction false} OverlapIsASharedMinute(a: MinuteRange, b: MinuteRange)
    requires a.startMinute < a.endMinute && b.startMinute < b.endMinute
    ensures RangesOverlap(a, b) <==> exists m :: Holds(a, m) && Holds(b, m)
  {
    var m := Max(a.startMinute, b.startMinute);
    if RangesOverlap(a, b) { assert Holds(a, m) && Holds(b, m); }
  }

  /** A range with a minute of its own lies within another exactly when the other has all its minutes. */
  lemma {:induction false} WithinIsEveryMinute(range: MinuteRange, w: MinuteRange)
    requires range.startMinute < range.endMinute
    ensures Within(range, w) <==> forall m :: Holds(range, m) ==> Holds(w, m)
  {
    if forall m :: Holds(range, m) ==> Holds(w, m) {
      assert Holds(w, range.startMinute) && Holds(w, range.endMinute - 1);
    }
  }

  /** The grid runs from the earliest opening, or midnight, to the latest closing, or midnight again. */
  lemma {:induction false} DayCoversOpenings(windows: seq<MinuteRange>)
    ensures DayStart(windows) <= 0 && DayEnd(windows) >= 1440
    ensures forall w :: w in windows ==> DayStart(windows) <= w.startMinute && w.endMinute <= DayEnd(windows)
    ensures DayStart(windows) == 0 || exists w :: w in windows && w.startMinute == DayStart(windows)
    ensures DayEnd(windows) == 1440 || exists w :: w in windows && w.endMinute == DayEnd(windows)
  {
    if windows != [] {
      var n := |windows| - 1;
      DayCoversOpenings(windows[..n]);
      assert windows[n] in windows;
      forall w | w in windows ensures w in windows[..n] || w == windows[n] {
        assert windows == windows[..n] + [windows[n]];
      }
    }
  }

  /** Every minute is one of the window, and of no blocked range. */
  ghost predicate Free(i: Input, window: MinuteRange, start: int, duration: int) {
    forall m :: start <= m < start + duration ==>
      Holds(window, m) && forall b :: b in i.blockedRanges ==> !Holds(b, m)
  }

  /**
   With ranges and durations that are not empty: a start on the grid and a duration are offered exactly when a duration
   window around the start allows the duration and all its minutes are free in one opening window.
   */
  lemma {:induction false} OffersByMinute(i: Input, slots: seq<Slot>, start: int, duration: int)
    requires i.stepMinutes > 0 && IsResult(i, slots) && duration > 0
    requires forall b :: b in i.blockedRanges ==> b.startMinute < b.endMinute
    ensures Offers(slots, start, duration) <==>
            && DayStart(i.openingWindows) <= start < DayEnd(i.openingWindows)
            && (start - DayStart(i.openingWindows)) % i.stepMinutes == 0
            && (exists w :: w in i.durationWindows && Holds(w.range, start) && duration in w.allowed)
            && exists o :: o in i.openingWindows && Free(i, o, start, duration)
  {
    hide Offers, DayStart, DayEnd;
    assert Offers(slots, start, duration) <==> Offerable(i, start, duration);
    OnGridByRest(i, start);
    FitsByMinute(i, start, duration);
    AllowedByWindow(i.durationWindows, start, duration);
  }

  lemma {:induction false} AllowedByWindow(windows: seq<DurationWindow>, start: int, duration: int)
    ensures AllowedHere(windows, start, duration) <==>
            exists w :: w in windows && Holds(w.range, start) && duration in w.allowed
  {
    if AllowedHere(windows, start, duration) {
      var k :| 0 <= k < |windows| && windows[k].range.startMinute <= start < windows[k].range.endMinute
        && duration in windows[k].allowed;
      assert windows[k] in windows && Holds(windows[k].range, start);
    }
  }

  lemma {:induction false} OnGridByRest(i: Input, start: int)
    requires i.stepMinutes > 0
    ensures OnGrid(i, start) <==>
            && DayStart(i.openingWindows) <= start < DayEnd(i.openingWindows)
            && (start - DayStart(i.openingWindows)) % i.stepMinutes == 0
  {
    hide DayStart, DayEnd;
    var d, step := start - DayStart(i.openingWindows), i.stepMinutes;
    if OnGrid(i, start) {
      var k: nat :| start == GridPoint(i, k);
      Multiple(k, step);
    }
    if d >= 0 && d % step == 0 && start < DayEnd(i.openingWindows) {
      Quotient(d, step);
      assert start == GridPoint(i, d / step);
    }
  }

  lemma {:induction false} Multiple(k: nat, step: int)
    requires step > 0
    ensures k * step >= 0 && (k * step) % step == 0
  {
    var d := k * step;
    var q, rest := d / step, d % step;
    assert d == step * q + rest;
    BelowOneStep(k - q, step, rest);
  }

  lemma {:induction false} BelowOneStep(x: int, step: int, rest: int)
    requires 0 <= rest < step && x * step == rest
    ensures rest == 0
  {
    assert x > 0 ==> x * step >= step;
    assert x < 0 ==> x * step <= -step;
  }

  lemma {:induction false} Quotient(d: int, step: int)
    requires d >= 0 && step > 0 && d % step == 0
    ensures d / step >= 0 && (d / step) * step == d
  {
  }

  lemma {:induction false} FitsByMinute(i: Input, start: int, duration: int)
    requires duration > 0 && forall b :: b in i.blockedRanges ==> b.startMinute < b.endMinute
    ensures Fits(i, start, duration) <==> exists o :: o in i.openingWindows && Free(i, o, start, duration)
  {
    hide RangesOverlap, Within;
    var range := Range(start, duration);
    forall b | b in i.blockedRanges ensures RangesOverlap(range, b) <==> exists m :: Holds(range, m) && Holds(b, m) {
      OverlapIsASharedMinute(range, b);
    }
    forall o ensures Within(range, o) <==> forall m :: Holds(range, m) ==> Holds(o, m) {
      WithinIsEveryMinute(range, o);
    }
    if Fits(i, start, duration) {
      var k :| 0 <= k < |i.openingWindows| && Within(range, i.openingWindows[k]);
      forall m | start <= m < start + duration
        ensures Holds(i.openingWindows[k], m) && forall b :: b in i.blockedRanges ==> !Holds(b, m) {
        assert Holds(range, m);
      }
      assert i.openingWindows[k] in i.openingWindows;
    }
    if o :| o in i.openingWindows && Free(i, o, start, duration) {
      var k :| 0 <= k < |i.openingWindows| && i.openingWindows[k] == o;
      assert Within(range, i.openingWindows[k]);
      forall k | 0 <= k < |i.blockedRanges| ensures !RangesOverlap(range, i.blockedRanges[k]) {
        var b := i.blockedRanges[k];
        assert forall m :: Holds(range, m) ==> !Holds(b, m);
      }
    }
  }
}
