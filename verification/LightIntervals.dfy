/**
 Merging the lighting windows of a court. Instants are reals and an interval is closed at both ends. The merged list
 is the only list of separated intervals that covers the same instants, so the order of the input and repeated merging
 do not matter.
 */
module LightIntervals {

  datatype Interval = Interval(start: real, end: real)

  predicate Contains(i: Interval, t: real) { i.start <= t <= i.end }

  predicate Covers(list: seq<Interval>, t: real) { exists k :: 0 <= k < |list| && Contains(list[k], t) }

  ghost predicate SameCover(a: seq<Interval>, b: seq<Interval>) { forall t :: Covers(a, t) <==> Covers(b, t) }

  predicate WellFormed(list: seq<Interval>) { forall k :: 0 <= k < |list| ==> list[k].start <= list[k].end }

  predicate Sorted(list: seq<Interval>) { forall i, j :: 0 <= i < j < |list| ==> list[i].start <= list[j].start }

  /** A gap between any two neighbours. */
  predicate Separated(list: seq<Interval>) { forall i, j :: 0 <= i < j < |list| ==> list[i].end < list[j].start }

  predicate Normal(list: seq<Interval>) { WellFormed(list) && Separated(list) }

  // ---------------------------------------------------------------------
  // The two stages
  // ---------------------------------------------------------------------

  /** Stable insertion: after every interval that starts no later. */
  function Insert(sorted: seq<Interval>, x: Interval): seq<Interval> {
    if sorted == [] || sorted[|sorted| - 1].start <= x.start then sorted + [x]
    else Insert(sorted[..|sorted| - 1], x) + [sorted[|sorted| - 1]]
  }

  function Sort(raw: seq<Interval>): seq<Interval> {
    if raw == [] then [] else Insert(Sort(raw[..|raw| - 1]), raw[|raw| - 1])
  }

  /** Extend the last merged interval, or open a new one. */
  function Absorb(merged: seq<Interval>, current: Interval): seq<Interval>
    requires merged != []
  {
    var last := merged[|merged| - 1];
    if current.start <= last.end then
      if current.end > last.end then merged[|merged| - 1 := last.(end := current.end)] else merged
    else merged + [current]
  }

  function MergeSorted(sorted: seq<Interval>): (merged: seq<Interval>)
    ensures sorted != [] ==> merged != []
  {
    if |sorted| <= 1 then sorted else Absorb(MergeSorted(sorted[..|sorted| - 1]), sorted[|sorted| - 1])
  }

  function Merge(raw: seq<Interval>): seq<Interval> { MergeSorted(Sort(raw)) }

  /** The loop of the source. */
  method MergeLightIntervals(raw: seq<Interval>) returns (merged: seq<Interval>)
    ensures merged == Merge(raw)
  {
    hide Sort, Sorted;
    if raw == [] {
      SameLength([]);
      return [];
    }
    var sorted := Sort(raw);
    SameLength(raw);
    merged := [sorted[0]];
    var k := 1;
    while k < |sorted|
      invariant 1 <= k <= |sorted|
      invariant merged == MergeSorted(sorted[..k])
    {
      var current := sorted[k];
      var last := merged[|merged| - 1];
      if current.start <= last.end {
        if current.end > last.end { merged := merged[|merged| - 1 := Interval(last.start, current.end)]; }
      } else {
        merged := merged + [current];
      }
      assert sorted[..k + 1][..k] == sorted[..k];
      k := k + 1;
    }
    assert sorted[..|sorted|] == sorted;
  }

  // ---------------------------------------------------------------------
  // Sorting
  // ---------------------------------------------------------------------

  predicate NoLater(list: seq<Interval>, start: real) { forall k :: 0 <= k < |list| ==> list[k].start <= start }

  lemma {:induction false} SortedEnd(list: seq<Interval>, x: Interval)
    ensures Sorted(list + [x]) <==> Sorted(list) && NoLater(list, x.start)
  {
    var r := list + [x];
    if Sorted(r) {
      forall k | 0 <= k < |list| ensures list[k].start <= x.start { assert r[k].start <= r[|list|].start; }
      forall i, j | 0 <= i < j < |list| ensures list[i].start <= list[j].start { assert r[i].start <= r[j].start; }
    }
  }

  lemma {:induction false} InsertKeepsElements(sorted: seq<Interval>, x: Interval)
    ensures multiset(Insert(sorted, x)) == multiset(sorted) + multiset{x}
  {
    if sorted != [] && sorted[|sorted| - 1].start > x.start {
      var n := |sorted| - 1;
      InsertKeepsElements(sorted[..n], x);
      assert sorted == sorted[..n] + [sorted[n]];
    }
  }

  lemma {:induction false} InsertNoLater(sorted: seq<Interval>, x: Interval, start: real)
    requires NoLater(sorted, start) && x.start <= start
    ensures NoLater(Insert(sorted, x), start)
  {
    if sorted != [] && sorted[|sorted| - 1].start > x.start { InsertNoLater(sorted[..|sorted| - 1], x, start); }
  }

  lemma {:induction false} InsertKeepsSorted(sorted: seq<Interval>, x: Interval)
    requires Sorted(sorted)
    ensures Sorted(Insert(sorted, x))
  {
    hide Sorted, NoLater;
    if sorted != [] {
      var n := |sorted| - 1;
      assert sorted == sorted[..n] + [sorted[n]];
      SortedEnd(sorted[..n], sorted[n]);
      if sorted[n].start <= x.start {
        LaterStill(sorted, x.start);
        SortedEnd(sorted, x);
      } else {
        InsertKeepsSorted(sorted[..n], x);
        InsertNoLater(sorted[..n], x, sorted[n].start);
        SortedEnd(Insert(sorted[..n], x), sorted[n]);
      }
    } else {
      SortedEnd([], x);
      assert NoLater([], x.start) by { Nothing(x.start); }
    }
  }

  lemma {:induction false} Nothing(start: real)
    ensures NoLater([], start) && Sorted([])
  {
  }

  lemma {:induction false} LaterStill(sorted: seq<Interval>, start: real)
    requires Sorted(sorted) && sorted != [] && sorted[|sorted| - 1].start <= start
    ensures NoLater(sorted, start)
  {
    forall k | 0 <= k < |sorted| ensures sorted[k].start <= start {
      if k < |sorted| - 1 { assert sorted[k].start <= sorted[|sorted| - 1].start; }
    }
  }

  lemma {:induction false} SortKeepsElements(raw: seq<Interval>)
    ensures multiset(Sort(raw)) == multiset(raw) && Sorted(Sort(raw))
  {
    hide Sorted, Insert;
    if raw == [] {
      Nothing(0.0);
    } else {
      var n := |raw| - 1;
      SortKeepsElements(raw[..n]);
      InsertKeepsElements(Sort(raw[..n]), raw[n]);
      InsertKeepsSorted(Sort(raw[..n]), raw[n]);
      assert raw == raw[..n] + [raw[n]];
    }
  }

  lemma {:induction false} SameElementsSameCover(a: seq<Interval>, b: seq<Interval>)
    requires multiset(a) == multiset(b)
    ensures SameCover(a, b) && (WellFormed(a) ==> WellFormed(b))
  {
    forall t ensures Covers(a, t) <==> Covers(b, t) {
      CoverCarries(a, b, t);
      CoverCarries(b, a, t);
    }
    forall k | 0 <= k < |b| ensures WellFormed(a) ==> b[k].start <= b[k].end {
      assert b[k] in multiset(a);
    }
  }

  lemma {:induction false} CoverCarries(a: seq<Interval>, b: seq<Interval>, t: real)
    requires multiset(a) == multiset(b)
    ensures Covers(a, t) ==> Covers(b, t)
  {
    if Covers(a, t) {
      var k :| 0 <= k < |a| && Contains(a[k], t);
      assert a[k] in multiset(b);
      var j :| 0 <= j < |b| && b[j] == a[k];
    }
  }

  lemma {:induction false} SameLength(raw: seq<Interval>)
    ensures |Sort(raw)| == |raw|
  {
    hide Sort, Sorted;
    SortKeepsElements(raw);
    assert |multiset(Sort(raw))| == |multiset(raw)|;
  }

  // ---------------------------------------------------------------------
  // Merging keeps the covered instants
  // ---------------------------------------------------------------------

  lemma {:induction false} AbsorbCovers(merged: seq<Interval>, x: Interval, t: real)
    requires merged != [] && merged[|merged| - 1].start <= x.start
    ensures Covers(Absorb(merged, x), t) <==> Covers(merged, t) || Contains(x, t)
  {
    var n := |merged| - 1;
    var r := Absorb(merged, x);
    if Covers(merged, t) {
      var k :| 0 <= k < |merged| && Contains(merged[k], t);
      assert Contains(r[k], t);
    }
    if Contains(x, t) {
      assert Contains(r[|r| - 1], t);
    }
    if Covers(r, t) {
      var k :| 0 <= k < |r| && Contains(r[k], t);
      if k < n { assert Contains(merged[k], t); }
      if k == n && !Contains(x, t) { assert Contains(merged[n], t); }
    }
  }

  lemma {:induction false} AbsorbFacts(merged: seq<Interval>, x: Interval)
    requires merged != [] && Separated(merged) && merged[|merged| - 1].start <= x.start
    ensures var m := Absorb(merged, x);
            && Separated(m) && (WellFormed(merged) && x.start <= x.end ==> WellFormed(m)) && m[|m| - 1].start <= x.start
  {
    var m := Absorb(merged, x);
    if |m| > |merged| {
      var n := |merged| - 1;
      if WellFormed(merged) { assert merged[n].start <= merged[n].end; }
      forall i | 0 <= i < |merged| ensures merged[i].end < x.start {
        if i < n { assert merged[i].end < merged[n].start; }
      }
    }
  }

  lemma {:induction false} MergedFacts(sorted: seq<Interval>)
    requires Sorted(sorted) && sorted != []
    ensures var m := MergeSorted(sorted);
            && Separated(m) && (WellFormed(sorted) ==> WellFormed(m))
            && m[|m| - 1].start <= sorted[|sorted| - 1].start
  {
    if |sorted| > 1 {
      hide Absorb, Separated;
      var n := |sorted| - 1;
      assert sorted[n - 1].start <= sorted[n].start;
      MergedFacts(sorted[..n]);
      AbsorbFacts(MergeSorted(sorted[..n]), sorted[n]);
    }
  }

  lemma {:induction false} MergeSortedCovers(sorted: seq<Interval>, t: real)
    requires Sorted(sorted)
    ensures Covers(MergeSorted(sorted), t) <==> Covers(sorted, t)
  {
    hide Absorb;
    if |sorted| > 1 {
      var n := |sorted| - 1;
      MergeSortedCovers(sorted[..n], t);
      MergedFacts(sorted[..n]);
      AbsorbCovers(MergeSorted(sorted[..n]), sorted[n], t);
      CoversSplit(sorted, t);
    }
  }

  lemma {:induction false} CoversSplit(list: seq<Interval>, t: real)
    requires list != []
    ensures Covers(list, t) <==> Covers(list[..|list| - 1], t) || Contains(list[|list| - 1], t)
  {
    var n := |list| - 1;
    if Covers(list[..n], t) {
      var k :| 0 <= k < n && Contains(list[..n][k], t);
      assert Contains(list[k], t);
    }
    if Covers(list, t) && !Contains(list[n], t) {
      var k :| 0 <= k < |list| && Contains(list[k], t);
      assert Contains(list[..n][k], t);
    }
  }

  /** Light is on at exactly the instants the input asks for, whatever the input. */
  lemma {:induction false} MergeKeepsCover(raw: seq<Interval>)
    ensures SameCover(Merge(raw), raw)
  {
    SortKeepsElements(raw);
    SameElementsSameCover(Sort(raw), raw);
    forall t ensures Covers(Merge(raw), t) <==> Covers(raw, t) { MergeSortedCovers(Sort(raw), t); }
  }

  /** No flicker: there is a gap between any two merged intervals. */
  lemma {:induction false} MergeIsNormal(raw: seq<Interval>)
    ensures Separated(Merge(raw)) && (WellFormed(raw) ==> Normal(Merge(raw)))
  {
    hide MergeSorted, Sort;
    SortKeepsElements(raw);
    SameElementsSameCover(raw, Sort(raw));
    if Sort(raw) != [] { MergedFacts(Sort(raw)); } else { assert MergeSorted([]) == [] by { EmptyMerge(); } }
  }

  lemma {:induction false} EmptyMerge()
    ensures MergeSorted([]) == []
  {
  }

  // ---------------------------------------------------------------------
  // Uniqueness
  // ---------------------------------------------------------------------

  /** An instant just before the last interval and after the one before it, not before `low`. */
  function GapBefore(list: seq<Interval>, low: real): real
    requires list != [] && low < list[|list| - 1].start
  {
    var n := |list| - 1;
    if n > 0 && list[n - 1].end >= low then (list[n - 1].end + list[n].start) / 2.0 else low
  }

  lemma {:induction false} GapIsDark(list: seq<Interval>, low: real)
    requires Normal(list) && list != [] && low < list[|list| - 1].start
    ensures low <= GapBefore(list, low) < list[|list| - 1].start && !Covers(list, GapBefore(list, low))
  {
    var n := |list| - 1;
    var t := GapBefore(list, low);
    if n > 0 {
      assert list[n - 1].end < list[n].start;
      assert list[n - 1].end < t;
      forall k | 0 <= k < |list| ensures !Contains(list[k], t) {
        if k < n - 1 { assert list[k].end < list[n - 1].start <= list[n - 1].end; }
      }
    }
  }

  lemma {:induction false} LastEnd(list: seq<Interval>, t: real)
    requires Normal(list) && list != [] && t >= list[|list| - 1].start
    ensures Covers(list, t) <==> t <= list[|list| - 1].end
  {
    var n := |list| - 1;
    if t <= list[n].end { assert Contains(list[n], t); }
    forall k | 0 <= k < n ensures !Contains(list[k], t) { assert list[k].end < list[n].start; }
  }

  lemma {:induction false} NothingAfter(list: seq<Interval>, t: real)
    requires Normal(list) && list != [] && Covers(list, t)
    ensures t <= list[|list| - 1].end
  {
    var n := |list| - 1;
    var k :| 0 <= k < |list| && Contains(list[k], t);
    if k < n { assert list[k].end < list[n].start <= list[n].end; }
  }

  lemma {:induction false} LastEndLeq(a: seq<Interval>, b: seq<Interval>)
    requires Normal(a) && Normal(b) && SameCover(a, b) && a != [] && b != []
    ensures a[|a| - 1].end <= b[|b| - 1].end
  {
    hide Normal, Covers;
    var t := a[|a| - 1].end;
    assert Covers(a, t) by { assert Normal(a); EndCovered(a); }
    NothingAfter(b, t);
  }

  lemma {:induction false} EndCovered(a: seq<Interval>)
    requires Normal(a) && a != []
    ensures Covers(a, a[|a| - 1].end) && Covers(a, a[|a| - 1].start)
  {
    assert Contains(a[|a| - 1], a[|a| - 1].end) && Contains(a[|a| - 1], a[|a| - 1].start);
  }

  lemma {:induction false} LastStartGeq(a: seq<Interval>, b: seq<Interval>)
    requires Normal(a) && Normal(b) && SameCover(a, b) && a != [] && b != []
    requires a[|a| - 1].end == b[|b| - 1].end
    ensures a[|a| - 1].start >= b[|b| - 1].start
  {
    var low := a[|a| - 1].start;
    if low < b[|b| - 1].start {
      GapIsDark(b, low);
      var t := GapBefore(b, low);
      assert t <= b[|b| - 1].end;
      LastEnd(a, t);
    }
  }

  lemma {:induction false} PrefixCover(a: seq<Interval>, b: seq<Interval>, t: real)
    requires Normal(a) && Normal(b) && a != [] && b != [] && a[|a| - 1] == b[|b| - 1]
    requires Covers(a, t) ==> Covers(b, t)
    ensures Covers(a[..|a| - 1], t) ==> Covers(b[..|b| - 1], t)
  {
    var n := |a| - 1;
    CoversSplit(a, t);
    CoversSplit(b, t);
    if Covers(a[..n], t) {
      var k :| 0 <= k < n && Contains(a[..n][k], t);
      assert a[k].end < a[n].start;
    }
  }

  /** Two separated lists that cover the same instants are the same list. */
  lemma {:induction false} NormalIsUnique(a: seq<Interval>, b: seq<Interval>)
    requires Normal(a) && Normal(b) && SameCover(a, b)
    ensures a == b
  {
    if a == [] || b == [] {
      if a != [] { EndCovered(a); }
      if b != [] { EndCovered(b); }
    } else {
      var n, m := |a| - 1, |b| - 1;
      LastEndLeq(a, b);
      LastEndLeq(b, a);
      LastStartGeq(a, b);
      LastStartGeq(b, a);
      forall t ensures Covers(a[..n], t) <==> Covers(b[..m], t) {
        PrefixCover(a, b, t);
        PrefixCover(b, a, t);
      }
      NormalIsUnique(a[..n], b[..m]);
      assert a == a[..n] + [a[n]] && b == b[..m] + [b[m]];
    }
  }

  /** Only the covered instants matter: neither the order nor the way the input is cut up. */
  lemma {:induction false} MergeDependsOnCoverOnly(a: seq<Interval>, b: seq<Interval>)
    requires WellFormed(a) && WellFormed(b) && SameCover(a, b)
    ensures Merge(a) == Merge(b)
  {
    hide Merge, Covers, WellFormed;
    MergeIsNormal(a);
    MergeIsNormal(b);
    MergeKeepsCover(a);
    MergeKeepsCover(b);
    NormalIsUnique(Merge(a), Merge(b));
  }

  lemma {:induction false} MergeIgnoresOrder(a: seq<Interval>, b: seq<Interval>)
    requires WellFormed(a) && multiset(a) == multiset(b)
    ensures Merge(a) == Merge(b)
  {
    hide Merge;
    SameElementsSameCover(a, b);
    MergeDependsOnCoverOnly(a, b);
  }

  lemma {:induction false} MergeIsIdempotent(raw: seq<Interval>)
    requires WellFormed(raw)
    ensures Merge(Merge(raw)) == Merge(raw)
  {
    hide Merge;
    MergeIsNormal(raw);
    MergeKeepsCover(raw);
    MergeDependsOnCoverOnly(Merge(raw), raw);
  }
}
