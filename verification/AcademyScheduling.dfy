/**
 Possible lessons: teacher, every student and a court at the same time. The loops are tied to an exact description of
 the result, and joined with SlotCalculator to show that no proposed lesson touches a blocked minute of a court it
 lists.
 */
module AcademyScheduling {
  import opened Common
  import opened SlotCalculator

  datatype Court = Court(id: nat, slots: seq<Slot>)

  datatype Lesson = Lesson(startMinute: int, endMinute: int, courtIds: seq<nat>)

  /** A student without declared windows has none. */
  datatype Query = Query(teacherWindows: seq<MinuteRange>, studentIds: seq<nat>,
                         windowsByStudent: map<nat, seq<MinuteRange>>, courts: seq<Court>, durationMinutes: int)

  function StudentWindows(q: Query, id: nat): seq<MinuteRange> {
    if id in q.windowsByStudent then q.windowsByStudent[id] else []
  }

  function IntersectRange(a: MinuteRange, b: MinuteRange): Option<MinuteRange> {
    var start, end := Max(a.startMinute, b.startMinute), Min(a.endMinute, b.endMinute);
    if start < end then Some(MinuteRange(start, end)) else None
  }

  // ---------------------------------------------------------------------
  // Common windows
  // ---------------------------------------------------------------------

  /** `x` is the overlap of `a` with one of the first `n` windows of `b`. */
  predicate OverlapsOne(a: MinuteRange, b: seq<MinuteRange>, n: nat, x: MinuteRange)
    requires n <= |b|
  {
    exists j :: 0 <= j < n && IntersectRange(a, b[j]) == Some(x)
  }

  /** `x` is the overlap of one of the first `n` windows of `a` with a window of `b`. */
  predicate OverlapsAny(a: seq<MinuteRange>, n: nat, b: seq<MinuteRange>, x: MinuteRange)
    requires n <= |a|
  {
    exists i :: 0 <= i < n && OverlapsOne(a[i], b, |b|, x)
  }

  ghost predicate IsIntersection(a: seq<MinuteRange>, b: seq<MinuteRange>, r: seq<MinuteRange>) {
    forall x :: x in r <==> OverlapsAny(a, |a|, b, x)
  }

  lemma {:induction false} OverlapsNext(a: MinuteRange, b: seq<MinuteRange>, n: nat, x: MinuteRange)
    requires n < |b|
    ensures OverlapsOne(a, b, n + 1, x) <==> OverlapsOne(a, b, n, x) || IntersectRange(a, b[n]) == Some(x)
  {
    hide IntersectRange;
  }

  lemma {:induction false} OverlapsAnyNext(a: seq<MinuteRange>, n: nat, b: seq<MinuteRange>, x: MinuteRange)
    requires n < |a|
    ensures OverlapsAny(a, n + 1, b, x) <==> OverlapsAny(a, n, b, x) || OverlapsOne(a[n], b, |b|, x)
  {
    hide OverlapsOne;
  }

  /** The nested loops over two lists of windows. */
  method IntersectRangeLists(a: seq<MinuteRange>, b: seq<MinuteRange>) returns (result: seq<MinuteRange>)
    ensures IsIntersection(a, b, result)
  {
    result := [];
    assert forall x :: !OverlapsAny(a, 0, b, x);
    hide IntersectRange, OverlapsOne, OverlapsAny;
    for i := 0 to |a|
      invariant forall x :: x in result <==> OverlapsAny(a, i, b, x)
    {
      ghost var before := result;
      assert forall x :: !OverlapsOne(a[i], b, 0, x) by { NoneYet(a[i], b); }
      for j := 0 to |b|
        invariant forall x :: x in result <==> x in before || OverlapsOne(a[i], b, j, x)
      {
        forall x { OverlapsNext(a[i], b, j, x); }
        var overlap := IntersectRange(a[i], b[j]);
        if overlap.Some? { result := result + [overlap.value]; }
      }
      forall x { OverlapsAnyNext(a, i, b, x); }
    }
  }

  lemma {:induction false} NoneYet(a: MinuteRange, b: seq<MinuteRange>)
    ensures forall x :: !OverlapsOne(a, b, 0, x)
  {
  }

  lemma {:induction false} FitsOverlap(a: MinuteRange, b: MinuteRange, lesson: MinuteRange)
    requires lesson.startMinute < lesson.endMinute
    ensures Within(lesson, a) && Within(lesson, b) <==>
            IntersectRange(a, b).Some? && Within(lesson, IntersectRange(a, b).value)
  {
  }

  lemma {:induction false} FitsIntersectionOnly(a: seq<MinuteRange>, b: seq<MinuteRange>, r: seq<MinuteRange>,
      lesson: MinuteRange)
    requires IsIntersection(a, b, r) && lesson.startMinute < lesson.endMinute && WithinAny(lesson, r)
    ensures WithinAny(lesson, a) && WithinAny(lesson, b)
  {
    hide IntersectRange, Within;
    var k :| 0 <= k < |r| && Within(lesson, r[k]);
    assert r[k] in r;
    var i :| 0 <= i < |a| && OverlapsOne(a[i], b, |b|, r[k]);
    var j :| 0 <= j < |b| && IntersectRange(a[i], b[j]) == Some(r[k]);
    FitsOverlap(a[i], b[j], lesson);
  }

  lemma {:induction false} FitsBothFitsIntersection(a: seq<MinuteRange>, b: seq<MinuteRange>, r: seq<MinuteRange>,
      lesson: MinuteRange)
    requires IsIntersection(a, b, r) && lesson.startMinute < lesson.endMinute && WithinAny(lesson, a)
             && WithinAny(lesson, b)
    ensures WithinAny(lesson, r)
  {
    hide IntersectRange, Within;
    var i :| 0 <= i < |a| && Within(lesson, a[i]);
    var j :| 0 <= j < |b| && Within(lesson, b[j]);
    FitsOverlap(a[i], b[j], lesson);
    var x := IntersectRange(a[i], b[j]).value;
    assert IntersectRange(a[i], b[j]) == Some(x);
    assert OverlapsOne(a[i], b, |b|, x);
    assert x in r;
  }

  /** A lesson of positive length fits the intersection exactly when it fits both lists. */
  lemma {:induction false} FitsIntersection(a: seq<MinuteRange>, b: seq<MinuteRange>, r: seq<MinuteRange>,
      lesson: MinuteRange)
    requires IsIntersection(a, b, r) && lesson.startMinute < lesson.endMinute
    ensures WithinAny(lesson, r) <==> WithinAny(lesson, a) && WithinAny(lesson, b)
  {
    hide IsIntersection, WithinAny;
    if WithinAny(lesson, r) { FitsIntersectionOnly(a, b, r, lesson); }
    if WithinAny(lesson, a) && WithinAny(lesson, b) { FitsBothFitsIntersection(a, b, r, lesson); }
  }

  /** Teacher and the first `n` students are free. */
  predicate EverybodyFree(q: Query, n: nat, lesson: MinuteRange)
    requires n <= |q.studentIds|
  {
    WithinAny(lesson, q.teacherWindows) && forall k :: 0 <= k < n ==>
      WithinAny(lesson, StudentWindows(q, q.studentIds[k]))
  }

  ghost predicate CommonFor(q: Query, n: nat, windows: seq<MinuteRange>)
    requires n <= |q.studentIds|
  {
    forall lesson: MinuteRange :: lesson.startMinute < lesson.endMinute ==>
      (WithinAny(lesson, windows) <==> EverybodyFree(q, n, lesson))
  }

  lemma {:induction false} OneMoreStudent(q: Query, n: nat, windows: seq<MinuteRange>, next: seq<MinuteRange>)
    requires n < |q.studentIds| && CommonFor(q, n, windows)
             && IsIntersection(windows, StudentWindows(q, q.studentIds[n]), next)
    ensures CommonFor(q, n + 1, next)
  {
    hide WithinAny, IsIntersection;
    forall lesson: MinuteRange | lesson.startMinute < lesson.endMinute
      ensures WithinAny(lesson, next) <==> EverybodyFree(q, n + 1, lesson)
    {
      FitsIntersection(windows, StudentWindows(q, q.studentIds[n]), next, lesson);
    }
  }

  lemma {:induction false} EmptyStaysEmpty(q: Query, n: nat)
    requires n <= |q.studentIds| && CommonFor(q, n, [])
    ensures CommonFor(q, |q.studentIds|, [])
  {
    forall lesson: MinuteRange | lesson.startMinute < lesson.endMinute
      ensures WithinAny(lesson, []) <==> EverybodyFree(q, |q.studentIds|, lesson)
    {
      FewerStudents(q, n, lesson);
    }
  }

  lemma {:induction false} FewerStudents(q: Query, n: nat, lesson: MinuteRange)
    requires n <= |q.studentIds|
    ensures EverybodyFree(q, |q.studentIds|, lesson) ==> EverybodyFree(q, n, lesson)
  {
  }

  /**
   `w` is what one window of the teacher and one of each of the first `n` students have in common, never an empty
   range.
   */
  ghost predicate IsCommon(q: Query, n: nat, w: MinuteRange)
    requires n <= |q.studentIds|
  {
    if n == 0 then w in q.teacherWindows
    else
      var m := n - 1;
      exists v, x :: IsCommon(q, m, v) && x in StudentWindows(q, q.studentIds[m]) && IntersectRange(v, x) == Some(w)
  }

  ghost predicate AreCommon(q: Query, n: nat, windows: seq<MinuteRange>)
    requires n <= |q.studentIds|
  {
    forall w :: w in windows <==> IsCommon(q, n, w)
  }

  lemma {:induction false} OverlapsAreCommon(q: Query, n: nat, windows: seq<MinuteRange>, w: MinuteRange)
    requires n < |q.studentIds| && AreCommon(q, n, windows)
    ensures var b := StudentWindows(q, q.studentIds[n]);
            OverlapsAny(windows, |windows|, b, w) <==> IsCommon(q, n + 1, w)
  {
    hide IntersectRange, StudentWindows;
    var b := StudentWindows(q, q.studentIds[n]);
    if OverlapsAny(windows, |windows|, b, w) {
      var i :| 0 <= i < |windows| && OverlapsOne(windows[i], b, |b|, w);
      var j :| 0 <= j < |b| && IntersectRange(windows[i], b[j]) == Some(w);
      assert windows[i] in windows && b[j] in b;
    }
    if IsCommon(q, n + 1, w) {
      var v, x :| IsCommon(q, n, v) && x in b && IntersectRange(v, x) == Some(w);
      assert v in windows;
      var i :| 0 <= i < |windows| && windows[i] == v;
      var j :| 0 <= j < |b| && b[j] == x;
      assert OverlapsOne(windows[i], b, |b|, w);
    }
  }

  lemma {:induction false} NextCommon(q: Query, n: nat, windows: seq<MinuteRange>, next: seq<MinuteRange>)
    requires n < |q.studentIds| && AreCommon(q, n, windows)
             && IsIntersection(windows, StudentWindows(q, q.studentIds[n]), next)
    ensures AreCommon(q, n + 1, next)
  {
    hide IsCommon, OverlapsAny, StudentWindows;
    forall w ensures w in next <==> IsCommon(q, n + 1, w) { OverlapsAreCommon(q, n, windows, w); }
  }

  lemma {:induction false} NoneLater(q: Query, n: nat, m: nat, w: MinuteRange)
    requires n <= m <= |q.studentIds| && AreCommon(q, n, [])
    ensures !IsCommon(q, m, w)
  {
    if n < m {
      var k := m - 1;
      forall v ensures !IsCommon(q, k, v) { NoneLater(q, n, k, v); }
    } else {
      assert w !in [];
    }
  }

  /** A common window holds only lessons, of any length, for which everybody is free. */
  lemma {:induction false} CommonIsFree(q: Query, n: nat, w: MinuteRange, lesson: MinuteRange)
    requires n <= |q.studentIds| && IsCommon(q, n, w) && Within(lesson, w)
    ensures EverybodyFree(q, n, lesson)
  {
    if n == 0 {
      var i :| 0 <= i < |q.teacherWindows| && q.teacherWindows[i] == w;
      assert Within(lesson, q.teacherWindows[i]);
    } else {
      var m := n - 1;
      var b := StudentWindows(q, q.studentIds[m]);
      var v, x :| IsCommon(q, m, v) && x in b && IntersectRange(v, x) == Some(w);
      CommonIsFree(q, m, v, lesson);
      var j :| 0 <= j < |b| && b[j] == x;
      assert Within(lesson, b[j]);
    }
  }

  /** The loop over the students, which stops as soon as nothing is left. */
  method CommonWindows(q: Query) returns (windows: seq<MinuteRange>)
    ensures AreCommon(q, |q.studentIds|, windows)
    ensures CommonFor(q, |q.studentIds|, windows)
  {
    hide IsIntersection, IsCommon;
    windows := q.teacherWindows;
    assert AreCommon(q, 0, windows) by { OnlyTeacher(q); }
    for k := 0 to |q.studentIds|
      invariant AreCommon(q, k, windows) && CommonFor(q, k, windows)
    {
      var next := IntersectRangeLists(windows, StudentWindows(q, q.studentIds[k]));
      OneMoreStudent(q, k, windows, next);
      NextCommon(q, k, windows, next);
      windows := next;
      if windows == [] {
        EmptyStaysEmpty(q, k + 1);
        forall w ensures !IsCommon(q, |q.studentIds|, w) { NoneLater(q, k + 1, |q.studentIds|, w); }
        return;
      }
    }
  }

  lemma {:induction false} OnlyTeacher(q: Query)
    ensures AreCommon(q, 0, q.teacherWindows)
  {
  }

  // ---------------------------------------------------------------------
  // Placing court slots
  // ---------------------------------------------------------------------

  predicate Listed(lessons: seq<Lesson>, start: int, court: nat) {
    exists k :: 0 <= k < |lessons| && lessons[k].startMinute == start && court in lessons[k].courtIds
  }

  predicate NoCourtTwice(ids: seq<nat>) { forall i, j :: 0 <= i < j < |ids| ==> ids[i] != ids[j] }

  predicate NoRepeats(lessons: seq<Lesson>) { forall k :: 0 <= k < |lessons| ==> NoCourtTwice(lessons[k].courtIds) }

  /** One lesson per start, each with its end and at least one court. */
  predicate WellShaped(lessons: seq<Lesson>, duration: int) {
    && (forall i, j :: 0 <= i < j < |lessons| ==> lessons[i].startMinute != lessons[j].startMinute)
    && forall k :: 0 <= k < |lessons| ==>
      lessons[k].endMinute == lessons[k].startMinute + duration && lessons[k].courtIds != []
  }

  /** `slots.find`: the lesson with this start and end. */
  function Find(lessons: seq<Lesson>, start: int, end: int): (r: Option<nat>)
    ensures r.Some? ==>
            r.value < |lessons| && lessons[r.value].startMinute == start && lessons[r.value].endMinute == end
    ensures r.None? ==> forall k :: 0 <= k < |lessons| ==>
            !(lessons[k].startMinute == start && lessons[k].endMinute == end)
  {
    if lessons == [] then None
    else
      var n := |lessons| - 1;
      var r := Find(lessons[..n], start, end);
      if r.Some? then r else if lessons[n].startMinute == start && lessons[n].endMinute == end then Some(n) else None
  }

  /** Add the court to the lesson with that start, or propose a new lesson. */
  method Place(lessons: seq<Lesson>, start: int, duration: int, court: nat) returns (r: seq<Lesson>)
    requires WellShaped(lessons, duration)
    ensures WellShaped(r, duration)
    ensures NoRepeats(lessons) && !Listed(lessons, start, court) ==> NoRepeats(r)
    ensures forall s, c :: Listed(r, s, c) <==> Listed(lessons, s, c) || (s == start && c == court)
  {
    hide Find;
    var existing := Find(lessons, start, start + duration);
    if existing.Some? {
      var k := existing.value;
      var old_ := lessons[k];
      r := lessons[k := old_.(courtIds := old_.courtIds + [court])];
      forall s, c ensures Listed(r, s, c) <==> Listed(lessons, s, c) || (s == start && c == court) {
        ListedUpdate(lessons, k, court, s, c);
      }
    } else {
      r := lessons + [Lesson(start, start + duration, [court])];
      forall s, c ensures Listed(r, s, c) <==> Listed(lessons, s, c) || (s == start && c == court) {
        ListedSnoc(lessons, Lesson(start, start + duration, [court]), s, c);
      }
    }
  }

  lemma {:induction false} ListedUpdate(lessons: seq<Lesson>, k: nat, court: nat, s: int, c: nat)
    requires k < |lessons|
    ensures Listed(lessons[k := lessons[k].(courtIds := lessons[k].courtIds + [court])], s, c) <==>
            Listed(lessons, s, c) || (s == lessons[k].startMinute && c == court)
  {
    var r := lessons[k := lessons[k].(courtIds := lessons[k].courtIds + [court])];
    if Listed(lessons, s, c) {
      var m :| 0 <= m < |lessons| && lessons[m].startMinute == s && c in lessons[m].courtIds;
      assert r[m].startMinute == s && c in r[m].courtIds;
    }
    if s == lessons[k].startMinute && c == court { assert r[k].startMinute == s && c in r[k].courtIds; }
    if Listed(r, s, c) {
      var m :| 0 <= m < |r| && r[m].startMinute == s && c in r[m].courtIds;
      if m != k { assert lessons[m].startMinute == s; } else if c != court { assert c in lessons[k].courtIds; }
    }
  }

  lemma {:induction false} ListedSnoc(lessons: seq<Lesson>, x: Lesson, s: int, c: nat)
    ensures Listed(lessons + [x], s, c) <==> Listed(lessons, s, c) || (s == x.startMinute && c in x.courtIds)
  {
    var r := lessons + [x];
    if Listed(lessons, s, c) {
      var m :| 0 <= m < |lessons| && lessons[m].startMinute == s && c in lessons[m].courtIds;
      assert r[m].startMinute == s && c in r[m].courtIds;
    }
    if s == x.startMinute && c in x.courtIds { assert r[|lessons|].startMinute == s; }
  }

  /** One of the first `n` slots of a court starts then, accepts the duration and fits the windows. */
  predicate Accepts(slots: seq<Slot>, n: nat, start: int, duration: int, windows: seq<MinuteRange>)
    requires n <= |slots|
  {
    && WithinAny(Range(start, duration), windows)
    && exists k :: 0 <= k < n && slots[k].startMinute == start && duration in slots[k].allowed
  }

  /** One of the first `n` courts accepts. */
  predicate CourtAccepts(courts: seq<Court>, n: nat, start: int, court: nat, duration: int, windows: seq<MinuteRange>)
    requires n <= |courts|
  {
    exists k :: 0 <= k < n && courts[k].id == court
      && Accepts(courts[k].slots, |courts[k].slots|, start, duration, windows)
  }

  predicate DistinctCourts(courts: seq<Court>) {
    && (forall i, j :: 0 <= i < j < |courts| ==> courts[i].id != courts[j].id)
    && forall k :: 0 <= k < |courts| ==> DistinctStarts(courts[k].slots)
  }

  predicate DistinctStarts(slots: seq<Slot>) {
    forall i, j :: 0 <= i < j < |slots| ==> slots[i].startMinute != slots[j].startMinute
  }

  lemma {:induction false} AcceptsNext(slots: seq<Slot>, n: nat, start: int, duration: int, windows: seq<MinuteRange>)
    requires n < |slots|
    ensures Accepts(slots, n + 1, start, duration, windows) <==>
            Accepts(slots, n, start, duration, windows)
            || (WithinAny(Range(start, duration), windows) && slots[n].startMinute == start
              && duration in slots[n].allowed)
  {
    hide WithinAny;
  }

  /** The inner loop: the slots of one court. */
  method PlaceCourt(lessons: seq<Lesson>, court: Court, duration: int, windows: seq<MinuteRange>)
      returns (r: seq<Lesson>)
    requires WellShaped(lessons, duration)
    ensures WellShaped(r, duration)
    ensures NoRepeats(lessons) && DistinctStarts(court.slots) && (forall s :: !Listed(lessons, s, court.id)) ==>
            NoRepeats(r)
    ensures forall s, c :: Listed(r, s, c) <==>
              Listed(lessons, s, c) || (c == court.id && Accepts(court.slots, |court.slots|, s, duration, windows))
  {
    hide Listed, WellShaped, WithinAny, NoRepeats;
    r := lessons;
    for k := 0 to |court.slots|
      invariant WellShaped(r, duration)
      invariant NoRepeats(lessons) && DistinctStarts(court.slots) && (forall s :: !Listed(lessons, s, court.id)) ==>
                NoRepeats(r)
      invariant forall s, c :: Listed(r, s, c) <==>
                  Listed(lessons, s, c) || (c == court.id && Accepts(court.slots, k, s, duration, windows))
    {
      var slot := court.slots[k];
      forall s ensures Accepts(court.slots, k + 1, s, duration, windows) <==>
                       Accepts(court.slots, k, s, duration, windows)
                       || (WithinAny(Range(s, duration), windows) && slot.startMinute == s
                         && duration in slot.allowed) {
        AcceptsNext(court.slots, k, s, duration, windows);
      }
      if duration in slot.allowed {
        if WithinAny(Range(slot.startMinute, duration), windows) {
          r := Place(r, slot.startMinute, duration, court.id);
        }
      }
    }
  }

  lemma {:induction false} CourtAcceptsNext(courts: seq<Court>, n: nat, start: int, court: nat, duration: int,
      windows: seq<MinuteRange>)
    requires n < |courts|
    ensures CourtAccepts(courts, n + 1, start, court, duration, windows) <==>
            CourtAccepts(courts, n, start, court, duration, windows)
            || (courts[n].id == court && Accepts(courts[n].slots, |courts[n].slots|, start, duration, windows))
  {
    hide Accepts;
  }

  /** The outer loop: every court in turn. */
  method PlaceCourts(courts: seq<Court>, duration: int, windows: seq<MinuteRange>) returns (r: seq<Lesson>)
    ensures WellShaped(r, duration) && (DistinctCourts(courts) ==> NoRepeats(r))
    ensures forall s, c :: Listed(r, s, c) <==> CourtAccepts(courts, |courts|, s, c, duration, windows)
  {
    r := [];
    hide Listed, WellShaped, Accepts, NoRepeats;
    assert WellShaped(r, duration) && NoRepeats(r) && forall s, c :: !Listed(r, s, c) by { NoLessons(duration); }
    for k := 0 to |courts|
      invariant WellShaped(r, duration) && (DistinctCourts(courts) ==> NoRepeats(r))
      invariant forall s, c :: Listed(r, s, c) <==> CourtAccepts(courts, k, s, c, duration, windows)
    {
      r := PlaceCourt(r, courts[k], duration, windows);
      forall s, c ensures CourtAccepts(courts, k + 1, s, c, duration, windows) <==>
                          CourtAccepts(courts, k, s, c, duration, windows)
                          || (courts[k].id == c && Accepts(courts[k].slots, |courts[k].slots|, s, duration, windows)) {
        CourtAcceptsNext(courts, k, s, c, duration, windows);
      }
    }
  }

  lemma {:induction false} NoLessons(duration: int)
    ensures WellShaped([], duration) && NoRepeats([]) && forall s, c :: !Listed([], s, c)
  {
  }

  // ---------------------------------------------------------------------
  // Sorting by start
  // ---------------------------------------------------------------------

  function Insert(lessons: seq<Lesson>, x: Lesson): seq<Lesson> {
    if lessons == [] || lessons[|lessons| - 1].startMinute <= x.startMinute then lessons + [x]
    else Insert(lessons[..|lessons| - 1], x) + [lessons[|lessons| - 1]]
  }

  function SortByStart(lessons: seq<Lesson>): seq<Lesson> {
    if lessons == [] then [] else Insert(SortByStart(lessons[..|lessons| - 1]), lessons[|lessons| - 1])
  }

  predicate InOrder(lessons: seq<Lesson>) {
    forall i, j :: 0 <= i < j < |lessons| ==> lessons[i].startMinute < lessons[j].startMinute
  }

  predicate AllBefore(lessons: seq<Lesson>, start: int) {
    forall k :: 0 <= k < |lessons| ==> lessons[k].startMinute < start
  }

  lemma {:induction false} InsertIn(lessons: seq<Lesson>, x: Lesson, y: Lesson)
    ensures y in Insert(lessons, x) <==> y in lessons || y == x
  {
    if !(lessons == [] || lessons[|lessons| - 1].startMinute <= x.startMinute) {
      var n := |lessons| - 1;
      InsertIn(lessons[..n], x, y);
      assert lessons == lessons[..n] + [lessons[n]];
    }
  }

  lemma {:induction false} InsertAllBefore(lessons: seq<Lesson>, x: Lesson, start: int)
    requires AllBefore(lessons, start) && x.startMinute < start
    ensures AllBefore(Insert(lessons, x), start)
  {
    if !(lessons == [] || lessons[|lessons| - 1].startMinute <= x.startMinute) {
      InsertAllBefore(lessons[..|lessons| - 1], x, start);
    }
  }

  lemma {:induction false} InsertInOrder(lessons: seq<Lesson>, x: Lesson)
    requires InOrder(lessons) && forall y :: y in lessons ==> y.startMinute != x.startMinute
    ensures InOrder(Insert(lessons, x))
  {
    if lessons != [] {
      var n := |lessons| - 1;
      assert lessons[n] in lessons;
      if lessons[n].startMinute > x.startMinute {
        InsertInOrder(lessons[..n], x);
        InsertAllBefore(lessons[..n], x, lessons[n].startMinute);
      }
    }
  }

  lemma {:induction false} SortIn(lessons: seq<Lesson>, y: Lesson)
    ensures y in SortByStart(lessons) <==> y in lessons
  {
    hide Insert;
    if lessons != [] {
      var n := |lessons| - 1;
      SortIn(lessons[..n], y);
      InsertIn(SortByStart(lessons[..n]), lessons[n], y);
      assert lessons == lessons[..n] + [lessons[n]];
    }
  }

  lemma {:induction false} SortInOrder(lessons: seq<Lesson>)
    requires forall i, j :: 0 <= i < j < |lessons| ==> lessons[i].startMinute != lessons[j].startMinute
    ensures InOrder(SortByStart(lessons))
  {
    hide Insert;
    if lessons != [] {
      var n := |lessons| - 1;
      SortInOrder(lessons[..n]);
      forall y | y in SortByStart(lessons[..n]) ensures y.startMinute != lessons[n].startMinute {
        SortIn(lessons[..n], y);
        var k :| 0 <= k < n && lessons[..n][k] == y;
        assert lessons[k] == y;
      }
      InsertInOrder(SortByStart(lessons[..n]), lessons[n]);
    }
  }

  lemma {:induction false} SameLessonsListed(a: seq<Lesson>, b: seq<Lesson>, s: int, c: nat)
    requires forall y :: y in a <==> y in b
    ensures Listed(a, s, c) <==> Listed(b, s, c)
  {
    if Listed(a, s, c) {
      var k :| 0 <= k < |a| && a[k].startMinute == s && c in a[k].courtIds;
      assert a[k] in b;
      var j :| 0 <= j < |b| && b[j] == a[k];
    }
    if Listed(b, s, c) {
      var k :| 0 <= k < |b| && b[k].startMinute == s && c in b[k].courtIds;
      assert b[k] in a;
      var j :| 0 <= j < |a| && a[j] == b[k];
    }
  }

  lemma {:induction false} SortedKeepsShape(lessons: seq<Lesson>, duration: int)
    requires WellShaped(lessons, duration)
    ensures InOrder(SortByStart(lessons)) && WellShaped(SortByStart(lessons), duration)
    ensures NoRepeats(lessons) ==> NoRepeats(SortByStart(lessons))
    ensures forall s, c :: Listed(SortByStart(lessons), s, c) <==> Listed(lessons, s, c)
  {
    hide SortByStart;
    var r := SortByStart(lessons);
    SortInOrder(lessons);
    forall y ensures y in r <==> y in lessons { SortIn(lessons, y); }
    forall k | 0 <= k < |r|
      ensures r[k].endMinute == r[k].startMinute + duration && r[k].courtIds != []
              && (NoRepeats(lessons) ==> NoCourtTwice(r[k].courtIds)) {
      assert r[k] in lessons;
    }
    forall s, c ensures Listed(r, s, c) <==> Listed(lessons, s, c) { SameLessonsListed(r, lessons, s, c); }
  }

  // ---------------------------------------------------------------------
  // The whole computation
  // ---------------------------------------------------------------------

  /** The court offers that start for that duration, and teacher and every student are free for the whole lesson. */
  predicate Possible(q: Query, start: int, court: nat) {
    && q.studentIds != [] && EverybodyFree(q, |q.studentIds|, Range(start, q.durationMinutes))
    && exists k :: 0 <= k < |q.courts| && q.courts[k].id == court && Offers(q.courts[k].slots, start, q.durationMinutes)
  }

  /** The court offers that start, and some common window of everybody holds the lesson. */
  ghost predicate Proposed(q: Query, start: int, court: nat) {
    && q.studentIds != []
    && (exists w :: IsCommon(q, |q.studentIds|, w) && Within(Range(start, q.durationMinutes), w))
    && exists k :: 0 <= k < |q.courts| && q.courts[k].id == court && Offers(q.courts[k].slots, start, q.durationMinutes)
  }

  predicate Sound(q: Query, lessons: seq<Lesson>) {
    InOrder(lessons) && WellShaped(lessons, q.durationMinutes) && (DistinctCourts(q.courts) ==> NoRepeats(lessons))
  }

  ghost predicate IsAnswer(q: Query, lessons: seq<Lesson>) {
    Sound(q, lessons) && forall s, c :: Listed(lessons, s, c) <==> Possible(q, s, c)
  }

  /** What the loops compute for a lesson of any length, even none. */
  ghost predicate IsProposal(q: Query, lessons: seq<Lesson>) {
    Sound(q, lessons) && forall s, c :: Listed(lessons, s, c) <==> Proposed(q, s, c)
  }

  lemma {:induction false} AcceptedIsProposed(q: Query, windows: seq<MinuteRange>, s: int, c: nat)
    requires q.studentIds != [] && AreCommon(q, |q.studentIds|, windows)
    ensures CourtAccepts(q.courts, |q.courts|, s, c, q.durationMinutes, windows) <==> Proposed(q, s, c)
  {
    hide IsCommon, Within;
    var lesson := Range(s, q.durationMinutes);
    if WithinAny(lesson, windows) {
      var i :| 0 <= i < |windows| && Within(lesson, windows[i]);
      assert windows[i] in windows;
    }
    if w :| IsCommon(q, |q.studentIds|, w) && Within(lesson, w) {
      assert w in windows;
      var i :| 0 <= i < |windows| && windows[i] == w;
      assert WithinAny(lesson, windows);
    }
    assert WithinAny(lesson, windows) <==> exists w :: IsCommon(q, |q.studentIds|, w) && Within(lesson, w);
    forall k | 0 <= k < |q.courts|
      ensures WithinAny(lesson, windows) ==>
                (Accepts(q.courts[k].slots, |q.courts[k].slots|, s, q.durationMinutes, windows)
                 <==> Offers(q.courts[k].slots, s, q.durationMinutes)) {
      hide WithinAny;
    }
  }

  /** Every proposed lesson is possible; with a positive length every possible one is proposed. */
  lemma {:induction false} ProposedIsPossible(q: Query, windows: seq<MinuteRange>, s: int, c: nat)
    requires AreCommon(q, |q.studentIds|, windows) && CommonFor(q, |q.studentIds|, windows)
    ensures Proposed(q, s, c) ==> Possible(q, s, c)
    ensures q.durationMinutes > 0 && Possible(q, s, c) ==> Proposed(q, s, c)
  {
    hide IsCommon, EverybodyFree, Offers, Within;
    var lesson := Range(s, q.durationMinutes);
    if w :| IsCommon(q, |q.studentIds|, w) && Within(lesson, w) { CommonIsFree(q, |q.studentIds|, w, lesson); }
    if q.durationMinutes > 0 && EverybodyFree(q, |q.studentIds|, lesson) {
      assert WithinAny(lesson, windows);
      var i :| 0 <= i < |windows| && Within(lesson, windows[i]);
      assert windows[i] in windows;
    }
  }

  /**
   Every start exactly once, in order, with exactly its courts, each named once; and nothing else. Lessons without a
   length are proposed only where everybody's windows really overlap; with a positive length that is everywhere
   everybody is free.
   */
  method ComputePossibleLessonSlots(q: Query) returns (lessons: seq<Lesson>)
    ensures IsProposal(q, lessons)
    ensures forall s, c :: Listed(lessons, s, c) ==> Possible(q, s, c)
    ensures q.durationMinutes > 0 ==> IsAnswer(q, lessons)
  {
    hide Listed, WellShaped, CourtAccepts, EverybodyFree, InOrder, CommonFor, AreCommon, SortByStart, NoRepeats,
      Possible, Proposed;
    lessons := [];
    assert IsAnswerShape(q, lessons) by { EmptyShape(q); }
    if q.studentIds == [] {
      NoStudents(q);
      return;
    }
    var windows := CommonWindows(q);
    forall s, c ensures CourtAccepts(q.courts, |q.courts|, s, c, q.durationMinutes, windows) <==> Proposed(q, s, c) {
      AcceptedIsProposed(q, windows, s, c);
    }
    forall s, c
      ensures Proposed(q, s, c) ==> Possible(q, s, c)
      ensures q.durationMinutes > 0 && Possible(q, s, c) ==> Proposed(q, s, c) {
      ProposedIsPossible(q, windows, s, c);
    }
    if windows == [] {
      forall s, c ensures !CourtAccepts(q.courts, |q.courts|, s, c, q.durationMinutes, []) {
        NothingFitsNothing(q.courts, s, c, q.durationMinutes);
      }
      return;
    }
    var placed := PlaceCourts(q.courts, q.durationMinutes, windows);
    lessons := SortByStart(placed);
    SortedKeepsShape(placed, q.durationMinutes);
  }

  lemma {:induction false} NoStudents(q: Query)
    requires q.studentIds == []
    ensures forall s, c :: !Proposed(q, s, c)
    ensures forall s, c :: !Possible(q, s, c)
  {
  }

  ghost predicate IsAnswerShape(q: Query, lessons: seq<Lesson>) {
    InOrder(lessons) && WellShaped(lessons, q.durationMinutes) && NoRepeats(lessons)
      && forall s, c :: !Listed(lessons, s, c)
  }

  lemma {:induction false} EmptyShape(q: Query)
    ensures IsAnswerShape(q, [])
  {
  }

  lemma {:induction false} NothingFitsNothing(courts: seq<Court>, s: int, c: nat, duration: int)
    ensures !CourtAccepts(courts, |courts|, s, c, duration, [])
  {
  }

  /**
   Fed by the slot calculator, a proposed lesson never touches a blocked minute of a court it lists, and lies in the
   teacher's and every student's windows.
   */
  lemma {:induction false} LessonsAvoidBlocked(q: Query, inputs: seq<Input>, lessons: seq<Lesson>, l: nat, k: nat,
      b: nat)
    requires IsAnswer(q, lessons) && |inputs| == |q.courts| && l < |lessons| && k < |q.courts|
             && b < |inputs[k].blockedRanges|
    requires forall j :: 0 <= j < |inputs| ==> inputs[j].stepMinutes > 0 && IsResult(inputs[j], q.courts[j].slots)
    requires (forall i, j :: 0 <= i < j < |q.courts| ==> q.courts[i].id != q.courts[j].id)
             && q.courts[k].id in lessons[l].courtIds
    ensures var lesson := MinuteRange(lessons[l].startMinute, lessons[l].endMinute);
            !RangesOverlap(lesson, inputs[k].blockedRanges[b]) && EverybodyFree(q, |q.studentIds|, lesson)
  {
    hide IsResult, Offers, EverybodyFree, RangesOverlap;
    var s, c := lessons[l].startMinute, q.courts[k].id;
    assert Listed(lessons, s, c);
    assert Possible(q, s, c);
    var j :| 0 <= j < |q.courts| && q.courts[j].id == c && Offers(q.courts[j].slots, s, q.durationMinutes);
    assert j == k;
    OfferAvoidsBlocked(inputs[k], q.courts[k].slots, s, q.durationMinutes, b);
  }

  /** Teacher free until 60, student from 60, and a court offering a lesson of no length at 60. */
  const BORDER := Query([MinuteRange(0, 60)], [7], map[7 := [MinuteRange(60, 120)]], [Court(1, [Slot(60, [0])])], 0)

  /** A positive length is needed: here a lesson at the border is possible, yet the computed result does not list it. */
  lemma {:induction false} BorderLessonIsMissed(lessons: seq<Lesson>)
    requires IsProposal(BORDER, lessons)
    ensures Possible(BORDER, 60, 1) && !Listed(lessons, 60, 1)
  {
    var q := BORDER;
    var b := StudentWindows(q, q.studentIds[0]);
    assert b == [MinuteRange(60, 120)];
    assert Within(Range(60, 0), q.teacherWindows[0]) && Within(Range(60, 0), b[0]);
    assert WithinAny(Range(60, 0), q.teacherWindows) && WithinAny(Range(60, 0), b);
    assert 0 in q.courts[0].slots[0].allowed;
    assert Offers(q.courts[0].slots, 60, 0);
    forall w ensures !IsCommon(q, 1, w) {
      forall v, x | IsCommon(q, 0, v) && x in b ensures IntersectRange(v, x) == None { }
    }
    assert !Proposed(q, 60, 1);
  }
}
