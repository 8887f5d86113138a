/**
 Automatic bank reconciliation: imported statement lines are matched one by one with recorded card payments, while
 payments keep being added and reversed. Instants are milliseconds; the id of an entry or a payment is its position.
 */
module Reconciliation {
  import opened Common

  const MATCH_WINDOW: int := 3 * 86_400_000

  datatype Method = Card | OtherMethod

  datatype PayStatus = Recorded | NotRecorded

  datatype Payment = Payment(means: Method, status: PayStatus, amount: int, createdAt: int)

  datatype EntryStatus = Matched(payment: nat) | Ambiguous | Unmatched

  datatype Entry = Entry(externalDate: int, amount: int, status: EntryStatus)

  datatype ImportRow = ImportRow(externalDate: int, amount: int)

  datatype State = State(payments: seq<Payment>, entries: seq<Entry>)

  datatype Event =
    | Append(rows: seq<ImportRow>)
    | Turn(entry: nat)
    | AddPayment(added: Payment)
    | SetPaymentStatus(payment: nat, status: PayStatus)

  predicate Taken(entries: seq<Entry>, p: nat) { exists k :: 0 <= k < |entries| && entries[k].status == Matched(p) }

  /** A card payment of exactly that amount, within three days of the bank date. */
  predicate Fits(p: Payment, amount: int, date: int) {
    p.means.Card? && p.amount == amount && date - MATCH_WINDOW <= p.createdAt <= date + MATCH_WINDOW
  }

  /** What `findCandidatePayments` selects for an entry. */
  predicate Candidate(s: State, e: Entry, p: nat) {
    p < |s.payments| && s.payments[p].status.Recorded? && Fits(s.payments[p], e.amount, e.externalDate)
      && !Taken(s.entries, p)
  }

  /** The candidates among the first `n` payments. */
  function Candidates(s: State, e: Entry, n: nat): seq<nat>
    requires n <= |s.payments|
  {
    if n == 0 then [] else Candidates(s, e, n - 1) + (if Candidate(s, e, n - 1) then [n - 1] else [])
  }

  lemma {:induction false} CandidatesExact(s: State, e: Entry, n: nat)
    requires n <= |s.payments|
    ensures var c := Candidates(s, e, n);
            && (forall p: nat :: p in c <==> p < n && Candidate(s, e, p))
            && (forall i, j :: 0 <= i < j < |c| ==> c[i] < c[j])
  {
    hide Candidate;
    if n > 0 {
      CandidatesExact(s, e, n - 1);
      var c := Candidates(s, e, n - 1);
      forall i | 0 <= i < |c| ensures c[i] < n - 1 { assert c[i] in c; }
    }
  }

  function Decide(candidates: seq<nat>): EntryStatus {
    if |candidates| == 1 then Matched(candidates[0]) else if |candidates| > 1 then Ambiguous else Unmatched
  }

  /** `autoMatchEntry`. */
  function TurnStep(s: State, id: nat): State
    requires id < |s.entries|
  {
    var e := s.entries[id];
    s.(entries := s.entries[id := e.(status := Decide(Candidates(s, e, |s.payments|)))])
  }

  function NewEntries(rows: seq<ImportRow>): seq<Entry> {
    seq(|rows|, k requires 0 <= k < |rows| => Entry(rows[k].externalDate, rows[k].amount, Unmatched))
  }

  function Step(s: State, ev: Event): State {
    match ev
    case Append(rows) => s.(entries := s.entries + NewEntries(rows))
    case Turn(id) => if id < |s.entries| then TurnStep(s, id) else s
    case AddPayment(p) => s.(payments := s.payments + [p])
    case SetPaymentStatus(p, st) => if p < |s.payments|
      then s.(payments := s.payments[p := s.payments[p].(status := st)]) else s
  }

  /** An entry that is matched gets no further automatic turn. */
  predicate Allowed(s: State, ev: Event) {
    ev.Turn? ==> ev.entry < |s.entries| && !s.entries[ev.entry].status.Matched?
  }

  // ---------------------------------------------------------------------
  // One turn
  // ---------------------------------------------------------------------

  /** A recorded card payment of the line's amount, at most three days from it, that no entry has. */
  predicate Open(s: State, e: Entry, p: nat) {
    && p < |s.payments|
    && var x := s.payments[p];
       && x.means.Card? && x.status.Recorded? && x.amount == e.amount
       && -259_200_000 <= x.createdAt - e.externalDate <= 259_200_000
       && forall k :: 0 <= k < |s.entries| ==> s.entries[k].status != Matched(p)
  }

  /** The verdict of a turn, by the number of such payments: exactly one, several, or none. */
  lemma {:induction false} TurnDecides(s: State, id: nat)
    requires id < |s.entries|
    ensures var e, verdict := s.entries[id], TurnStep(s, id).entries[id].status;
            && (forall p: nat :: verdict == Matched(p) <==>
              Open(s, e, p) && forall r: nat :: Open(s, e, r) ==> r == p)
            && (verdict.Ambiguous? <==> exists p: nat, r: nat :: p != r && Open(s, e, p) && Open(s, e, r))
            && (verdict.Unmatched? <==> forall p: nat :: !Open(s, e, p))
  {
    forall p: nat ensures Candidate(s, s.entries[id], p) <==> Open(s, s.entries[id], p) { }
    VerdictByCandidates(s, id);
  }

  lemma {:induction false} VerdictByCandidates(s: State, id: nat)
    requires id < |s.entries|
    ensures var e, verdict := s.entries[id], TurnStep(s, id).entries[id].status;
            && (forall p: nat :: verdict == Matched(p) <==>
              Candidate(s, e, p) && forall r: nat :: Candidate(s, e, r) ==> r == p)
            && (verdict.Ambiguous? <==> exists p: nat, r: nat :: p != r && Candidate(s, e, p) && Candidate(s, e, r))
            && (verdict.Unmatched? <==> forall p: nat :: !Candidate(s, e, p))
  {
    hide Candidate, Candidates;
    var e := s.entries[id];
    var c := Candidates(s, e, |s.payments|);
    CandidatesExact(s, e, |s.payments|);
    CandidatesInRange(s, e);
    forall k | 0 <= k < |c| ensures Candidate(s, e, c[k]) { assert c[k] in c; }
    if |c| > 1 { assert c[0] != c[1] && Candidate(s, e, c[0]) && Candidate(s, e, c[1]); }
    forall p: nat | Candidate(s, e, p) ensures |c| == 1 ==> p == c[0] { assert p in c; }
    forall p: nat, r: nat | p != r && Candidate(s, e, p) && Candidate(s, e, r) ensures |c| > 1 {
      assert p in c && r in c;
    }
  }

  lemma {:induction false} CandidatesInRange(s: State, e: Entry)
    ensures forall p: nat :: Candidate(s, e, p) ==> p < |s.payments|
  {
  }

  // ---------------------------------------------------------------------
  // Runs
  // ---------------------------------------------------------------------

  predicate MatchOk(s: State, e: Entry) {
    e.status.Matched? ==>
      e.status.payment < |s.payments| && Fits(s.payments[e.status.payment], e.amount, e.externalDate)
  }

  predicate Inv(s: State) {
    && (forall k :: 0 <= k < |s.entries| ==> MatchOk(s, s.entries[k]))
    && forall i, j :: 0 <= i < j < |s.entries| && s.entries[i].status.Matched? ==>
      s.entries[i].status != s.entries[j].status
  }

  lemma {:induction false} TurnKeeps(s: State, id: nat)
    requires Inv(s) && Allowed(s, Turn(id))
    ensures Inv(TurnStep(s, id))
  {
    hide Candidates, Fits;
    var t := TurnStep(s, id);
    var e := s.entries[id];
    var c := Candidates(s, e, |s.payments|);
    CandidatesExact(s, e, |s.payments|);
    if |c| == 1 {
      assert c[0] in c;
      assert Candidate(s, e, c[0]);
      forall k | 0 <= k < |s.entries| ensures s.entries[k].status != Matched(c[0]) { assert !Taken(s.entries, c[0]); }
    }
    forall i, j | 0 <= i < j < |t.entries| && t.entries[i].status.Matched?
      ensures t.entries[i].status != t.entries[j].status {
      if i != id && j != id { assert s.entries[i].status != s.entries[j].status; }
    }
  }

  lemma {:induction false} StepKeeps(s: State, ev: Event)
    requires Inv(s) && Allowed(s, ev)
    ensures Inv(Step(s, ev))
  {
    hide Candidates;
    if ev.Turn? {
      TurnKeeps(s, ev.entry);
    } else {
      var t := Step(s, ev);
      forall k | 0 <= k < |t.entries| ensures MatchOk(t, t.entries[k]) {
        if k < |s.entries| { assert MatchOk(s, s.entries[k]); }
      }
    }
  }

  ghost predicate IsRun(states: seq<State>, events: seq<Event>) {
    && |states| == |events| + 1 && states[0].entries == []
    && forall k :: 0 <= k < |events| ==> Allowed(states[k], events[k]) && states[k + 1] == Step(states[k], events[k])
  }

  lemma {:induction false} RunKeepsInv(states: seq<State>, events: seq<Event>, k: nat)
    requires IsRun(states, events) && k < |states|
    ensures Inv(states[k])
  {
    hide Step, Allowed;
    if k > 0 {
      hide Inv;
      RunKeepsInv(states, events, k - 1);
      StepKeeps(states[k - 1], events[k - 1]);
    }
  }

  /** Over any sequence of imports, no payment is matched by two entries. */
  lemma {:induction false} NoPaymentMatchedTwice(states: seq<State>, events: seq<Event>, k: nat, i: nat, j: nat, p: nat)
    requires IsRun(states, events) && k < |states| && i < j < |states[k].entries|
    ensures !(states[k].entries[i].status == Matched(p) && states[k].entries[j].status == Matched(p))
  {
    hide IsRun;
    RunKeepsInv(states, events, k);
  }

  /** Every match is a card payment of the exact amount within the window. */
  lemma {:induction false} MatchesAreExact(states: seq<State>, events: seq<Event>, k: nat, i: nat)
    requires IsRun(states, events) && k < |states| && i < |states[k].entries| && states[k].entries[i].status.Matched?
    ensures var p := states[k].entries[i].status.payment;
            p < |states[k].payments|
              && Fits(states[k].payments[p], states[k].entries[i].amount, states[k].entries[i].externalDate)
  {
    hide IsRun, Fits;
    RunKeepsInv(states, events, k);
    assert MatchOk(states[k], states[k].entries[i]);
  }

  /** A match is never taken back automatically. */
  lemma {:induction false} MatchesStay(states: seq<State>, events: seq<Event>, k: nat, l: nat, i: nat)
    requires IsRun(states, events) && k <= l < |states| && i < |states[k].entries|
             && states[k].entries[i].status.Matched?
    ensures i < |states[l].entries| && states[l].entries[i] == states[k].entries[i]
  {
    if k < l { MatchesStay(states, events, k, l - 1, i); }
  }

  // ---------------------------------------------------------------------
  // The service
  // ---------------------------------------------------------------------

  /** Turns taken one after the other. */
  function Turns(s: State, ids: seq<nat>): State {
    if ids == [] then s else Step(Turns(s, ids[..|ids| - 1]), Turn(ids[|ids| - 1]))
  }

  function DateOf(entries: seq<Entry>, id: nat): int {
    if id < |entries| then entries[id].externalDate else 0
  }

  predicate InDateOrder(entries: seq<Entry>, ids: seq<nat>) {
    forall i, j :: 0 <= i < j < |ids| ==> DateOf(entries, ids[i]) <= DateOf(entries, ids[j])
  }

  predicate AllUpTo(entries: seq<Entry>, ids: seq<nat>, date: int) {
    forall k :: 0 <= k < |ids| ==> DateOf(entries, ids[k]) <= date
  }

  /** Insert by date, after equal dates. */
  function InsertByDate(entries: seq<Entry>, ids: seq<nat>, id: nat): seq<nat> {
    if ids == [] || DateOf(entries, ids[|ids| - 1]) <= DateOf(entries, id) then ids + [id]
    else InsertByDate(entries, ids[..|ids| - 1], id) + [ids[|ids| - 1]]
  }

  /** `listEntriesForImport`: the ids from `first` up to `n`, oldest date first. */
  function ByDate(entries: seq<Entry>, first: nat, n: nat): seq<nat>
    requires first <= n
  {
    if n == first then [] else InsertByDate(entries, ByDate(entries, first, n - 1), n - 1)
  }

  lemma {:induction false} InsertAddsOne(entries: seq<Entry>, ids: seq<nat>, id: nat)
    ensures multiset(InsertByDate(entries, ids, id)) == multiset(ids) + multiset{id}
  {
    hide DateOf;
    if !(ids == [] || DateOf(entries, ids[|ids| - 1]) <= DateOf(entries, id)) {
      var n := |ids| - 1;
      InsertAddsOne(entries, ids[..n], id);
      assert ids == ids[..n] + [ids[n]];
    }
  }

  lemma {:induction false} InsertUpTo(entries: seq<Entry>, ids: seq<nat>, id: nat, date: int)
    requires AllUpTo(entries, ids, date) && DateOf(entries, id) <= date
    ensures AllUpTo(entries, InsertByDate(entries, ids, id), date)
  {
    hide DateOf;
    if !(ids == [] || DateOf(entries, ids[|ids| - 1]) <= DateOf(entries, id)) {
      InsertUpTo(entries, ids[..|ids| - 1], id, date);
    }
  }

  lemma {:induction false} InsertKeepsOrder(entries: seq<Entry>, ids: seq<nat>, id: nat)
    requires InDateOrder(entries, ids)
    ensures InDateOrder(entries, InsertByDate(entries, ids, id))
  {
    hide DateOf;
    if ids != [] {
      var n := |ids| - 1;
      if DateOf(entries, ids[n]) <= DateOf(entries, id) {
        forall k | 0 <= k < |ids| ensures DateOf(entries, ids[k]) <= DateOf(entries, id) {
          if k < n { assert DateOf(entries, ids[k]) <= DateOf(entries, ids[n]); }
        }
      } else {
        InsertKeepsOrder(entries, ids[..n], id);
        InsertUpTo(entries, ids[..n], id, DateOf(entries, ids[n]));
      }
    }
  }

  /** Every new entry takes exactly one turn, in date order. */
  lemma {:induction false} ByDateIsExact(entries: seq<Entry>, first: nat, n: nat)
    requires first <= n
    ensures var ids := ByDate(entries, first, n);
            InDateOrder(entries, ids) && forall id: nat :: multiset(ids)[id] == if first <= id < n then 1 else 0
  {
    hide InsertByDate, DateOf;
    if first < n {
      ByDateIsExact(entries, first, n - 1);
      InsertAddsOne(entries, ByDate(entries, first, n - 1), n - 1);
      InsertKeepsOrder(entries, ByDate(entries, first, n - 1), n - 1);
    } else {
      assert multiset(ByDate(entries, first, n)) == multiset{};
    }
  }

  predicate Distinct(ids: seq<nat>) { forall i, j :: 0 <= i < j < |ids| ==> ids[i] != ids[j] }

  /** Turns over distinct unmatched entries are turns the protocol allows; they touch no other entry. */
  lemma {:induction false} TurnsKeep(s: State, ids: seq<nat>)
    requires Inv(s) && Distinct(ids) && forall k :: 0 <= k < |ids| ==>
             ids[k] < |s.entries| && !s.entries[ids[k]].status.Matched?
    ensures var t := Turns(s, ids);
            && Inv(t) && t.payments == s.payments && |t.entries| == |s.entries|
            && (forall id: nat :: id < |s.entries| && id !in ids ==> t.entries[id] == s.entries[id])
            && forall id: nat :: id < |s.entries| ==>
                 t.entries[id].externalDate == s.entries[id].externalDate
                   && t.entries[id].amount == s.entries[id].amount
  {
    hide Inv, Candidates;
    if ids != [] {
      var n := |ids| - 1;
      TurnsKeep(s, ids[..n]);
      var t := Turns(s, ids[..n]);
      assert ids[n] !in ids[..n];
      assert t.entries[ids[n]] == s.entries[ids[n]];
      TurnKeeps(t, ids[n]);
    }
  }

  lemma {:induction false} DistinctByCount(ids: seq<nat>)
    requires forall id: nat :: multiset(ids)[id] <= 1
    ensures Distinct(ids)
  {
    forall i, j | 0 <= i < j < |ids| ensures ids[i] != ids[j] {
      var a, b := ids[..j], ids[j..];
      assert ids == a + b;
      assert a[i] in multiset(a) && b[0] in multiset(b);
      assert multiset(ids)[ids[j]] == multiset(a)[ids[j]] + multiset(b)[ids[j]];
    }
  }

  function Import(s: State, rows: seq<ImportRow>): State {
    var appended := Step(s, Append(rows));
    Turns(appended, ByDate(appended.entries, |s.entries|, |appended.entries|))
  }

  /** The new entries take their turns in this order, each once. */
  ghost predicate TakeTurns(s: State, rows: seq<ImportRow>, ids: seq<nat>) {
    var appended := Step(s, Append(rows));
    && Inv(appended) && Distinct(ids) && InDateOrder(appended.entries, ids)
    && forall id: nat :: id in ids <==> |s.entries| <= id < |appended.entries|
  }

  lemma {:induction false} EverybodyTakesATurn(s: State, rows: seq<ImportRow>)
    requires Inv(s)
    ensures var appended := Step(s, Append(rows));
            TakeTurns(s, rows, ByDate(appended.entries, |s.entries|, |appended.entries|))
  {
    hide ByDate, Inv;
    var appended := Step(s, Append(rows));
    var ids := ByDate(appended.entries, |s.entries|, |appended.entries|);
    StepKeeps(s, Append(rows));
    ByDateIsExact(appended.entries, |s.entries|, |appended.entries|);
    DistinctByCount(ids);
    forall id: nat ensures id in ids <==> |s.entries| <= id < |appended.entries| {
      assert id in ids <==> id in multiset(ids);
    }
  }

  /**
   A whole import adds one entry per line, with the line's date and amount, keeps every earlier verdict, and the
   exclusiveness and exactness of the matches.
   */
  lemma {:induction false} ImportKeepsInv(s: State, rows: seq<ImportRow>)
    requires Inv(s)
    ensures var t := Import(s, rows);
            && Inv(t) && t.payments == s.payments
            && |t.entries| == |s.entries| + |rows| && t.entries[..|s.entries|] == s.entries
            && forall k :: 0 <= k < |rows| ==>
                 var e := t.entries[|s.entries| + k];
                 e.externalDate == rows[k].externalDate && e.amount == rows[k].amount
  {
    hide ByDate, Turns, Inv;
    var appended := Step(s, Append(rows));
    var ids := ByDate(appended.entries, |s.entries|, |appended.entries|);
    EverybodyTakesATurn(s, rows);
    forall k | 0 <= k < |ids| ensures ids[k] < |appended.entries| && !appended.entries[ids[k]].status.Matched? {
      assert ids[k] in ids;
    }
    TurnsKeep(appended, ids);
  }

  /** Entry `k` takes none of the turns from `a` on. */
  predicate NotFrom(ids: seq<nat>, a: nat, k: nat) { forall b :: a <= b < |ids| ==> ids[b] != k }

  lemma {:induction false} OneTurn(s: State, id: nat, k: nat)
    requires k < |s.entries|
    ensures var t := Step(s, Turn(id)); |t.entries| == |s.entries| && (k != id ==> t.entries[k] == s.entries[k])
  {
    hide Candidates;
  }

  /** Entry `k` is as the first `a` turns left it. */
  lemma {:induction false} LaterTurnsKeep(s: State, ids: seq<nat>, a: nat, k: nat)
    requires a <= |ids| && k < |s.entries| && NotFrom(ids, a, k)
    ensures var before, t := Turns(s, ids[..a]), Turns(s, ids);
            |before.entries| == |s.entries| == |t.entries| && t.entries[k] == before.entries[k]
  {
    hide Step;
    if a < |ids| {
      var shorter := ids[..|ids| - 1];
      assert shorter[..a] == ids[..a];
      LaterTurnsKeep(s, shorter, a, k);
      OneTurn(Turns(s, shorter), ids[|ids| - 1], k);
    } else {
      assert ids[..a] == ids;
      TurnsKeepLength(s, ids);
    }
  }

  lemma {:induction false} TurnsKeepLength(s: State, ids: seq<nat>)
    ensures |Turns(s, ids).entries| == |s.entries|
  {
    hide Candidates;
    if ids != [] { TurnsKeepLength(s, ids[..|ids| - 1]); }
  }

  /** The state in which the `a`-th turn is taken, and what the later turns leave of it. */
  lemma {:induction false} TurnIsKept(s: State, ids: seq<nat>, a: nat)
    requires Inv(s) && Distinct(ids) && a < |ids| && forall k :: 0 <= k < |ids| ==>
             ids[k] < |s.entries| && !s.entries[ids[k]].status.Matched?
    ensures var before, t := Turns(s, ids[..a]), Turns(s, ids);
            && Inv(before) && before.payments == s.payments && |before.entries| == |s.entries| == |t.entries|
            && before.entries[ids[a]] == s.entries[ids[a]]
            && t.entries[ids[a]] == TurnStep(before, ids[a]).entries[ids[a]]
            && (forall k :: a < k < |ids| ==> before.entries[ids[k]] == s.entries[ids[k]])
            && forall k: nat :: k < |s.entries| && NotFrom(ids, a, k) ==> t.entries[k] == before.entries[k]
  {
    hide Inv, TurnStep, Turns;
    TurnsKeep(s, ids[..a]);
    TurnsKeepLength(s, ids);
    var before := Turns(s, ids[..a]);
    forall k | a <= k < |ids| ensures before.entries[ids[k]] == s.entries[ids[k]] { assert ids[k] !in ids[..a]; }
    forall k: nat | k < |s.entries| && NotFrom(ids, a, k) ensures Turns(s, ids).entries[k] == before.entries[k] {
      LaterTurnsKeep(s, ids, a, k);
    }
    LaterTurnsKeep(s, ids, a + 1, ids[a]);
    TurnAt(s, ids, a);
  }

  lemma {:induction false} TurnAt(s: State, ids: seq<nat>, a: nat)
    requires a < |ids|
    ensures Turns(s, ids[..a + 1]) == Step(Turns(s, ids[..a]), Turn(ids[a]))
  {
    hide Step;
    assert ids[..a + 1][..a] == ids[..a];
  }

  /**
   Older lines go first: if a line of the import gets a payment that an older line of the same import would also have
   fitted, the older line was not left without a candidate, it was ambiguous.
   */
  lemma {:induction false} OlderLineGoesFirst(s: State, rows: seq<ImportRow>, older: nat, younger: nat, p: nat)
    requires Inv(s) && older < |rows| && younger < |rows| && rows[older].externalDate < rows[younger].externalDate
    requires var t := Import(s, rows);
             && |t.entries| == |s.entries| + |rows| && t.entries[|s.entries| + younger].status == Matched(p)
             && p < |s.payments| && s.payments[p].status.Recorded?
             && Fits(s.payments[p], rows[older].amount, rows[older].externalDate)
    ensures Import(s, rows).entries[|s.entries| + older].status.Ambiguous?
  {
    hide ByDate, Turns, Inv, Fits, InDateOrder;
    var appended := Step(s, Append(rows));
    var ids := ByDate(appended.entries, |s.entries|, |appended.entries|);
    var i, j := |s.entries| + older, |s.entries| + younger;
    EverybodyTakesATurn(s, rows);
    ImportKeepsInv(s, rows);
    assert i in ids && j in ids;
    var a :| 0 <= a < |ids| && ids[a] == i;
    var b :| 0 <= b < |ids| && ids[b] == j;
    EarlierDateEarlierTurn(appended.entries, ids, a, b);
    forall k | 0 <= k < |ids| ensures ids[k] < |appended.entries| && !appended.entries[ids[k]].status.Matched? {
      assert ids[k] in ids;
    }
    EarlierTurnGoesFirst(appended, ids, a, b, p);
  }

  lemma {:induction false} EarlierDateEarlierTurn(entries: seq<Entry>, ids: seq<nat>, a: nat, b: nat)
    requires InDateOrder(entries, ids) && a < |ids| && b < |ids| && ids[a] < |entries| && ids[b] < |entries|
    requires entries[ids[a]].externalDate < entries[ids[b]].externalDate
    ensures a < b
  {
    hide InDateOrder;
    OrderAt(entries, ids, b, a);
  }

  lemma {:induction false} OrderAt(entries: seq<Entry>, ids: seq<nat>, x: nat, y: nat)
    requires InDateOrder(entries, ids) && x < |ids| && y < |ids|
    ensures x < y ==> DateOf(entries, ids[x]) <= DateOf(entries, ids[y])
  {
  }

  lemma {:induction false} EarlierTurnGoesFirst(s: State, ids: seq<nat>, a: nat, b: nat, p: nat)
    requires Inv(s) && Distinct(ids) && a < b < |ids| && forall k :: 0 <= k < |ids| ==>
             ids[k] < |s.entries| && !s.entries[ids[k]].status.Matched?
    requires p < |s.payments| && s.payments[p].status.Recorded?
             && Fits(s.payments[p], s.entries[ids[a]].amount, s.entries[ids[a]].externalDate)
    requires var t := Turns(s, ids); ids[b] < |t.entries| && t.entries[ids[b]].status == Matched(p)
    ensures var t := Turns(s, ids); ids[a] < |t.entries| && t.entries[ids[a]].status.Ambiguous?
  {
    hide Turns, Inv, Fits, TurnStep, Candidates;
    var i, before, t := ids[a], Turns(s, ids[..a]), Turns(s, ids);
    TurnsKeep(s, ids);
    TurnIsKept(s, ids, a);
    assert before.entries[i] == s.entries[i];
    forall k | a <= k < |ids| ensures !before.entries[ids[k]].status.Matched? { }
    NobodyHasItYet(before, t, ids, a, b, p);
    assert Candidate(before, before.entries[i], p);
    VerdictByCandidates(before, i);
    OneHolder(t, i, ids[b]);
    assert t.entries[i].status != Matched(p);
  }

  lemma {:induction false} OneHolder(t: State, i: nat, j: nat)
    requires Inv(t) && i < |t.entries| && j < |t.entries| && i != j
    ensures t.entries[i].status.Matched? ==> t.entries[i].status != t.entries[j].status
  {
    var x, y := if i < j then i else j, if i < j then j else i;
    assert t.entries[x].status.Matched? ==> t.entries[x].status != t.entries[y].status;
  }

  lemma {:induction false} NobodyHasItYet(before: State, t: State, ids: seq<nat>, a: nat, b: nat, p: nat)
    requires Inv(t) && a < b < |ids| && |before.entries| == |t.entries| && Distinct(ids)
    requires forall k :: 0 <= k < |ids| ==> ids[k] < |t.entries|
    requires t.entries[ids[b]].status == Matched(p)
    requires forall k :: a <= k < |ids| ==> !before.entries[ids[k]].status.Matched?
    requires forall k: nat :: k < |before.entries| && NotFrom(ids, a, k) ==> t.entries[k] == before.entries[k]
    ensures !Taken(before.entries, p)
  {
    hide Inv;
    if Taken(before.entries, p) {
      var k: nat :| k < |before.entries| && before.entries[k].status == Matched(p);
      assert t.entries[k].status == Matched(p);
      OneHolder(t, k, ids[b]);
    }
  }

  class ReconciliationService {
    var payments: seq<Payment>
    var entries: seq<Entry>

    function Value(): State
      reads this
    {
      State(payments, entries)
    }

    constructor (payments: seq<Payment>)
      ensures Value() == State(payments, [])
    {
      this.payments, entries := payments, [];
    }

    /** An unknown entry is left alone; any other gets the verdict of one turn. */
    method AutoMatchEntry(id: nat)
      modifies this`entries
      ensures Value() == Step(old(Value()), Turn(id))
    {
      if id >= |entries| { return; }
      var e := entries[id];
      var candidates := Candidates(Value(), e, |payments|);
      if |candidates| == 1 {
        entries := entries[id := e.(status := Matched(candidates[0]))];
      } else if |candidates| > 1 {
        entries := entries[id := e.(status := Ambiguous)];
      } else {
        entries := entries[id := e.(status := Unmatched)];
      }
    }

    /** One turn after the other. */
    method AutoMatchAll(ids: seq<nat>)
      modifies this`entries
      ensures Value() == Turns(old(Value()), ids)
    {
      hide Step;
      for k := 0 to |ids|
        invariant Value() == Turns(old(Value()), ids[..k])
      {
        assert ids[..k + 1][..k] == ids[..k];
        AutoMatchEntry(ids[k]);
      }
      assert ids[..|ids|] == ids;
    }

    /**
     Refused as a whole for an empty statement or a non-positive amount; otherwise one turn per line, oldest first.
     */
    method ImportBatch(rows: seq<ImportRow>) returns (ok: bool)
      modifies this`entries
      ensures ok <==> rows != [] && forall k :: 0 <= k < |rows| ==> rows[k].amount > 0
      ensures !ok ==> Value() == old(Value())
      ensures ok ==> Value() == Import(old(Value()), rows)
    {
      hide ByDate, Turns;
      if rows == [] { return false; }
      for k := 0 to |rows|
        invariant forall j :: 0 <= j < k ==> rows[j].amount > 0
      {
        if rows[k].amount <= 0 { return false; }
      }
      var first := |entries|;
      entries := entries + NewEntries(rows);
      AutoMatchAll(ByDate(entries, first, |entries|));
      ok := true;
    }
  }
}
