/**
 The event outbox of the Raspberry and its deduplicated copy on the server. Posts are lost, repeated, delayed and
 partially processed; only a completely processed post is answered 202. An event's queue id is its position in
 `queue`.
 */
module DeviceEvents {
  import opened Common

  const BATCH: nat := 50

  datatype Event = Event(id: nat, body: string)

  datatype QueueRow = QueueRow(event: Event, sent: bool)

  datatype State = State(queue: seq<QueueRow>, recorded: seq<Event>, posts: set<seq<Event>>, completed: set<seq<Event>>,
                         waiting: Option<seq<nat>>)

  datatype Move =
    | QueueEvent(event: Event)
    | Send
    | Process(post: seq<Event>, prefix: nat)
    | Reply202
    | GiveUp

  // ---------------------------------------------------------------------
  // Server: one insert at a time under the unique (device, event) key
  // ---------------------------------------------------------------------

  predicate Has(recorded: seq<Event>, id: nat) { exists k :: 0 <= k < |recorded| && recorded[k].id == id }

  function Record(recorded: seq<Event>, e: Event): seq<Event> {
    if Has(recorded, e.id) then recorded else recorded + [e]
  }

  function RecordAll(recorded: seq<Event>, events: seq<Event>): seq<Event> {
    if events == [] then recorded else Record(RecordAll(recorded, events[..|events| - 1]), events[|events| - 1])
  }

  predicate Distinct(events: seq<Event>) {
    forall i, j :: 0 <= i < j < |events| ==> events[i].id != events[j].id
  }

  /**
   Recording keeps what was there, adds each missing event once, adds nothing else, and afterwards has them all.
   */
  lemma {:induction false} RecordAllExact(recorded: seq<Event>, events: seq<Event>)
    ensures var r := RecordAll(recorded, events);
            && |recorded| <= |r| <= |recorded| + |events| && r[..|recorded|] == recorded
            && (Distinct(recorded) ==> Distinct(r))
            && (forall k :: |recorded| <= k < |r| ==> r[k] in events)
            && (forall k :: 0 <= k < |events| ==> Has(r, events[k].id))
  {
    if events != [] {
      var n := |events| - 1;
      RecordAllExact(recorded, events[..n]);
      var q := RecordAll(recorded, events[..n]);
      var r := RecordAll(recorded, events);
      forall k | 0 <= k < |events| ensures Has(r, events[k].id) {
        if k < n {
          assert Has(q, events[..n][k].id);
          HasGrows(q, events[n], events[k].id);
        } else if !Has(q, events[n].id) {
          assert r[|q|] == events[n];
        }
      }
      forall k | |recorded| <= k < |r| ensures r[k] in events {
        if k < |q| { assert q[k] in events[..n]; }
      }
    }
  }

  lemma {:induction false} HasGrows(recorded: seq<Event>, e: Event, id: nat)
    requires Has(recorded, id)
    ensures Has(Record(recorded, e), id)
  {
    var k :| 0 <= k < |recorded| && recorded[k].id == id;
    assert Record(recorded, e)[k].id == id;
  }

  /** Recording the same events again changes nothing. */
  lemma {:induction false} RecordAgain(recorded: seq<Event>, events: seq<Event>)
    requires forall k :: 0 <= k < |events| ==> Has(recorded, events[k].id)
    ensures RecordAll(recorded, events) == recorded
  {
    if events != [] {
      var n := |events| - 1;
      forall k | 0 <= k < n ensures Has(recorded, events[..n][k].id) {
        assert events[..n][k] == events[k];
      }
      RecordAgain(recorded, events[..n]);
    }
  }

  // ---------------------------------------------------------------------
  // Device
  // ---------------------------------------------------------------------

  /** The first unsent rows below `n`, oldest first, at most BATCH of them. */
  function Pending(queue: seq<QueueRow>, n: nat): (ids: seq<nat>)
    requires n <= |queue|
    ensures forall id :: id in ids ==> id < n
  {
    if n == 0 then []
    else
      var p := Pending(queue, n - 1);
      if !queue[n - 1].sent && |p| < BATCH then p + [n - 1] else p
  }

  predicate Rising(ids: seq<nat>) {
    forall i, j :: 0 <= i < j < |ids| ==> ids[i] < ids[j]
  }

  /** A pending batch is unsent rows in order, and a row is left out only when the batch is full of older ones. */
  lemma {:induction false} PendingExact(queue: seq<QueueRow>, n: nat)
    requires n <= |queue|
    ensures var p := Pending(queue, n);
            && |p| <= BATCH && Rising(p) && (forall k :: 0 <= k < |p| ==> p[k] < n && !queue[p[k]].sent)
            && forall id :: 0 <= id < n && !queue[id].sent && id !in p ==> |p| == BATCH && p[|p| - 1] < id
  {
    if n > 0 { PendingExact(queue, n - 1); }
  }

  function EventsAt(queue: seq<QueueRow>, ids: seq<nat>): seq<Event>
    requires ValidIds(queue, ids)
  {
    seq(|ids|, k requires 0 <= k < |ids| => assert ids[k] in ids; queue[ids[k]].event)
  }

  function MarkSent(queue: seq<QueueRow>, ids: seq<nat>): seq<QueueRow> {
    seq(|queue|, i requires 0 <= i < |queue| => if i in ids then queue[i].(sent := true) else queue[i])
  }

  predicate Known(queue: seq<QueueRow>, e: Event) { exists k :: 0 <= k < |queue| && queue[k].event == e }

  predicate ValidIds(queue: seq<QueueRow>, ids: seq<nat>) {
    forall id :: id in ids ==> id < |queue|
  }

  function Step(s: State, m: Move): State {
    match m
    case QueueEvent(e) => s.(queue := s.queue + [QueueRow(e, false)])
    case Send =>
      var ids := Pending(s.queue, |s.queue|);
      if s.waiting == None && ids != [] then
        s.(waiting := Some(ids), posts := s.posts + {EventsAt(s.queue, ids)})
      else s
    case Process(post, prefix) =>
      if post in s.posts && prefix <= |post| then
        s.(recorded := RecordAll(s.recorded, post[..prefix]),
           completed := if prefix == |post| then s.completed + {post} else s.completed)
      else s
    case Reply202 =>
      if s.waiting.Some? && ValidIds(s.queue, s.waiting.value) && EventsAt(s.queue, s.waiting.value) in s.completed then
        s.(queue := MarkSent(s.queue, s.waiting.value), waiting := None)
      else s
    case GiveUp => s.(waiting := None)
  }

  /** Event ids are fresh (uuid4). */
  predicate Allowed(s: State, m: Move) {
    m.QueueEvent? ==> forall k :: 0 <= k < |s.queue| ==> s.queue[k].event.id != m.event.id
  }

  predicate Inv(s: State) {
    && (forall i, j :: 0 <= i < j < |s.queue| ==> s.queue[i].event.id != s.queue[j].event.id)
    && Distinct(s.recorded)
    && (forall e :: e in s.recorded ==> Known(s.queue, e))
    && (forall p :: p in s.posts ==> AllKnown(s.queue, p))
    && (forall p :: p in s.completed ==> AllRecorded(s.recorded, p))
    && (forall k :: 0 <= k < |s.queue| && s.queue[k].sent ==> Has(s.recorded, s.queue[k].event.id))
  }

  predicate AllKnown(queue: seq<QueueRow>, post: seq<Event>) { forall k :: 0 <= k < |post| ==> Known(queue, post[k]) }

  predicate AllRecorded(recorded: seq<Event>, post: seq<Event>) {
    forall k :: 0 <= k < |post| ==> Has(recorded, post[k].id)
  }

  lemma {:induction false} HasPrefix(small: seq<Event>, big: seq<Event>, id: nat)
    requires |small| <= |big| && big[..|small|] == small && Has(small, id)
    ensures Has(big, id)
  {
    var k :| 0 <= k < |small| && small[k].id == id;
    assert big[..|small|][k] == big[k];
  }

  lemma {:induction false} QueueKeeps(s: State, e: Event)
    requires Inv(s) && Allowed(s, QueueEvent(e))
    ensures Inv(Step(s, QueueEvent(e)))
  {
    hide Has, Distinct;
    var t := Step(s, QueueEvent(e));
    forall x | Known(s.queue, x) ensures Known(t.queue, x) {
      var k :| 0 <= k < |s.queue| && s.queue[k].event == x;
      assert t.queue[k].event == x;
    }
  }

  lemma {:induction false} SendKeeps(s: State)
    requires Inv(s)
    ensures Inv(Step(s, Send))
  {
    hide Has, Distinct, Pending;
    var ids := Pending(s.queue, |s.queue|);
    if s.waiting == None && ids != [] {
      var post := EventsAt(s.queue, ids);
      forall k | 0 <= k < |post| ensures Known(s.queue, post[k]) {
        assert ids[k] in ids;
        assert s.queue[ids[k]].event == post[k];
      }
    }
  }

  lemma {:induction false} ProcessKeeps(s: State, post: seq<Event>, prefix: nat)
    requires Inv(s) && post in s.posts && prefix <= |post|
    ensures Inv(Step(s, Process(post, prefix)))
  {
    hide Has, Known, RecordAll;
    var t := Step(s, Process(post, prefix));
    var n := |s.recorded|;
    RecordAllExact(s.recorded, post[..prefix]);
    forall e | e in t.recorded ensures Known(t.queue, e) {
      var k :| 0 <= k < |t.recorded| && t.recorded[k] == e;
      if k < n {
        assert t.recorded[..n][k] == e;
      } else {
        assert e in post[..prefix];
        assert AllKnown(s.queue, post);
      }
    }
    forall id: nat | Has(s.recorded, id) ensures Has(t.recorded, id) { HasPrefix(s.recorded, t.recorded, id); }
    forall p | p in t.completed ensures AllRecorded(t.recorded, p) {
      if p in s.completed { assert AllRecorded(s.recorded, p); } else { assert p == post && post[..prefix] == post; }
    }
  }

  lemma {:induction false} ReplyKeeps(s: State)
    requires Inv(s)
    ensures Inv(Step(s, Reply202))
  {
    hide Has, Distinct;
    var t := Step(s, Reply202);
    forall x | Known(s.queue, x) ensures Known(t.queue, x) {
      var k :| 0 <= k < |s.queue| && s.queue[k].event == x;
      assert t.queue[k].event == x;
    }
    if t != s {
      var ids := s.waiting.value;
      var post := EventsAt(s.queue, ids);
      assert AllRecorded(s.recorded, post);
      forall i | 0 <= i < |t.queue| && t.queue[i].sent ensures Has(t.recorded, t.queue[i].event.id) {
        if i in ids {
          var k :| 0 <= k < |ids| && ids[k] == i;
          assert post[k] == s.queue[i].event;
        }
      }
    }
  }

  lemma {:induction false} StepKeeps(s: State, m: Move)
    requires Inv(s) && Allowed(s, m)
    ensures Inv(Step(s, m))
  {
    match m
    case QueueEvent(e) => QueueKeeps(s, e);
    case Send => SendKeeps(s);
    case Process(post, prefix) => if post in s.posts && prefix <= |post| { ProcessKeeps(s, post, prefix); }
    case Reply202 => ReplyKeeps(s);
    case GiveUp =>
  }

  predicate IsRun(states: seq<State>, moves: seq<Move>) {
    && |states| == |moves| + 1 && states[0] == State([], [], {}, {}, None)
    && forall k :: 0 <= k < |moves| ==> Allowed(states[k], moves[k]) && states[k + 1] == Step(states[k], moves[k])
  }

  lemma {:induction false} RunKeepsInv(states: seq<State>, moves: seq<Move>, k: nat)
    requires IsRun(states, moves) && k < |states|
    ensures Inv(states[k])
  {
    hide Step, Allowed;
    if k > 0 {
      hide Inv;
      RunKeepsInv(states, moves, k - 1);
      StepKeeps(states[k - 1], moves[k - 1]);
    }
  }

  /**
   At every point of every run: the server has no event twice and none that was not queued, with its own content, and
   it has every event the device believes delivered, exactly as queued.
   */
  lemma {:induction false} RecordedExactlyOnce(states: seq<State>, moves: seq<Move>, k: nat)
    requires IsRun(states, moves) && k < |states|
    ensures var s := states[k];
            && Distinct(s.recorded) && (forall e :: e in s.recorded ==> Known(s.queue, e))
            && forall i :: 0 <= i < |s.queue| && s.queue[i].sent ==> s.queue[i].event in s.recorded
  {
    hide IsRun;
    RunKeepsInv(states, moves, k);
    var s := states[k];
    forall i | 0 <= i < |s.queue| && s.queue[i].sent ensures s.queue[i].event in s.recorded {
      var r :| 0 <= r < |s.recorded| && s.recorded[r].id == s.queue[i].event.id;
      assert s.recorded[r] in s.recorded;
      assert Known(s.queue, s.recorded[r]);
    }
  }

  lemma {:induction false} NothingDisappears(s: State, m: Move, i: nat)
    requires i < |s.queue|
    ensures i < |Step(s, m).queue| && Step(s, m).queue[i].event == s.queue[i].event
            && (s.queue[i].sent ==> Step(s, m).queue[i].sent)
    ensures |s.recorded| <= |Step(s, m).recorded| && Step(s, m).recorded[..|s.recorded|] == s.recorded
  {
    hide Pending, RecordAll;
    if m.Process? && m.post in s.posts && m.prefix <= |m.post| { RecordAllExact(s.recorded, m.post[..m.prefix]); }
  }

  /** No event is ever lost: it stays in the queue, and until it is marked sent it stays pending there. */
  lemma {:induction false} NeverLost(states: seq<State>, moves: seq<Move>, k: nat, l: nat, i: nat)
    requires IsRun(states, moves) && k <= l < |states| && i < |states[k].queue|
    ensures i < |states[l].queue| && states[l].queue[i].event == states[k].queue[i].event
    ensures states[l].queue[i].sent ==> states[l].queue[i].event in states[l].recorded
  {
    hide Step, RecordAll;
    if k < l {
      NeverLost(states, moves, k, l - 1, i);
      NothingDisappears(states[l - 1], moves[l - 1], i);
    }
    RecordedExactlyOnce(states, moves, l);
  }

  function UnsentCount(queue: seq<QueueRow>): nat {
    if queue == [] then 0 else UnsentCount(queue[..|queue| - 1]) + (if queue[|queue| - 1].sent then 0 else 1)
  }

  /** Marking the pending rows below `n` sends as many rows as there are in the batch. */
  lemma {:induction false} MarkingDrains(queue: seq<QueueRow>, n: nat)
    requires n <= |queue|
    ensures |Pending(queue, n)| == Min(BATCH, UnsentCount(queue[..n]))
    ensures UnsentCount(MarkSent(queue[..n], Pending(queue, n))) == UnsentCount(queue[..n]) - |Pending(queue, n)|
  {
    if n > 0 {
      var p := Pending(queue, n - 1);
      var q := Pending(queue, n);
      MarkingDrains(queue, n - 1);
      PendingExact(queue, n - 1);
      assert queue[..n][..n - 1] == queue[..n - 1];
      var m := MarkSent(queue[..n], q);
      assert m[..n - 1] == MarkSent(queue[..n - 1], p);
      assert n - 1 in q <==> !queue[n - 1].sent && |p| < BATCH;
    } else {
      assert MarkSent(queue[..0], []) == [];
    }
  }

  /** The batch is the unsent rows that fewer than 50 unsent rows precede. */
  lemma {:induction false} PendingByRank(queue: seq<QueueRow>, n: nat, k: nat)
    requires k < n <= |queue|
    ensures k in Pending(queue, n) <==> !queue[k].sent && UnsentCount(queue[..k]) < 50
  {
    var p := Pending(queue, n - 1);
    if k < n - 1 {
      PendingByRank(queue, n - 1, k);
    } else {
      MarkingDrains(queue, k);
      assert k !in p;
    }
  }

  /** One undisturbed flush delivers the oldest 50 unsent events, or all when there are fewer. */
  lemma {:induction false} FlushDelivers(s: State)
    requires s.waiting == None && UnsentCount(s.queue) > 0
    ensures var sent := Step(s, Send);
            && sent.waiting.Some?
            && var post := EventsAt(s.queue, Pending(s.queue, |s.queue|));
               var t := Step(Step(sent, Process(post, |post|)), Reply202);
               && UnsentCount(t.queue) == UnsentCount(s.queue) - Min(BATCH, UnsentCount(s.queue))
               && t.recorded == RecordAll(s.recorded, post)
  {
    hide Pending, RecordAll, UnsentCount;
    PendingExact(s.queue, |s.queue|);
    assert s.queue[..|s.queue|] == s.queue;
    MarkingDrains(s.queue, |s.queue|);
    var ids := Pending(s.queue, |s.queue|);
    var post := EventsAt(s.queue, ids);
    assert post[..|post|] == post;
  }

  // ---------------------------------------------------------------------
  // The two programs
  // ---------------------------------------------------------------------

  class EventStore {
    var recorded: seq<Event>

    constructor ()
      ensures recorded == []
    {
      recorded := [];
    }

    /** The insert loop; `crashAt` is where the database gives up, if it does. */
    method RecordEvents(events: seq<Event>, crashAt: Option<nat>)
        returns (answered: bool, accepted: nat, duplicates: nat)
      modifies this
      ensures answered <==> !(crashAt.Some? && crashAt.value < |events|)
      ensures recorded == RecordAll(old(recorded), if answered then events else events[..crashAt.value])
      ensures answered ==> accepted + duplicates == |events| && accepted == |recorded| - |old(recorded)|
    {
      accepted, duplicates := 0, 0;
      for k := 0 to |events|
        invariant crashAt.Some? ==> k <= crashAt.value
        invariant recorded == RecordAll(old(recorded), events[..k])
        invariant accepted + duplicates == k && accepted == |recorded| - |old(recorded)|
      {
        if crashAt == Some(k) { return false, accepted, duplicates; }
        assert events[..k + 1][..k] == events[..k];
        if Has(recorded, events[k].id) {
          duplicates := duplicates + 1;
        } else {
          recorded := recorded + [events[k]];
          accepted := accepted + 1;
        }
      }
      assert events[..|events|] == events;
      answered := true;
    }
  }

  /** What becomes of a post: not delivered, broken off by the server, or processed, with its answer arriving or not. */
  datatype Network = PostLost | BrokenOff(at: nat) | AnswerLost | Answered

  /** Row `k` is due: unsent, and one of the oldest 50 that are. */
  predicate Due(queue: seq<QueueRow>, k: nat) {
    k < |queue| && !queue[k].sent && UnsentCount(queue[..k]) < 50
  }

  /** Nothing that was recorded goes, and only due events come. */
  predicate RecordsOnlyDue(queue: seq<QueueRow>, before: seq<Event>, after: seq<Event>) {
    && |before| <= |after| && after[..|before|] == before
    && forall e :: e in after[|before|..] ==> exists k :: 0 <= k < |queue| && Due(queue, k) && queue[k].event == e
  }

  lemma {:induction false} FlushIsForDue(queue: seq<QueueRow>, before: seq<Event>, at: nat)
    requires var post := EventsAt(queue, Pending(queue, |queue|)); at <= |post|
    ensures var pending := Pending(queue, |queue|);
            var post := EventsAt(queue, pending);
            var after := RecordAll(before, post[..at]);
            && (forall k: nat :: k in pending <==> Due(queue, k))
            && RecordsOnlyDue(queue, before, after)
            && (at == |post| ==> forall k: nat :: Due(queue, k) ==> Has(after, queue[k].event.id))
  {
    hide Pending, UnsentCount, RecordAll, Has;
    var pending := Pending(queue, |queue|);
    var post := EventsAt(queue, pending);
    var after := RecordAll(before, post[..at]);
    forall k: nat ensures k in pending <==> Due(queue, k) {
      if k < |queue| { PendingByRank(queue, |queue|, k); }
    }
    RecordAllExact(before, post[..at]);
    forall e | e in after[|before|..]
      ensures exists k :: 0 <= k < |queue| && Due(queue, k) && queue[k].event == e {
      var i :| 0 <= i < |after[|before|..]| && after[|before|..][i] == e;
      assert after[|before| + i] in post[..at];
      var j :| 0 <= j < at && post[j] == e;
      assert pending[j] in pending;
    }
    if at == |post| {
      forall k: nat | Due(queue, k) ensures Has(after, queue[k].event.id) {
        assert k in pending;
        var j :| 0 <= j < |pending| && pending[j] == k;
        assert post[..at][j] == queue[k].event;
      }
    }
  }

  lemma {:induction false} NothingNew(queue: seq<QueueRow>, recorded: seq<Event>)
    ensures RecordsOnlyDue(queue, recorded, recorded)
  {
  }

  class EventOutbox {
    const store: EventStore
    var queue: seq<QueueRow>
    ghost var posts: set<seq<Event>>
    ghost var completed: set<seq<Event>>
    ghost var waiting: Option<seq<nat>>

    ghost function Value(): State
      reads this, store
    {
      State(queue, store.recorded, posts, completed, waiting)
    }

    constructor (store: EventStore)
      ensures this.store == store && Value() == State([], store.recorded, {}, {}, None)
    {
      this.store, queue, posts, completed, waiting := store, [], {}, {}, None;
    }

    method QueueEvent(e: Event)
      modifies this`queue
      ensures Value() == Step(old(Value()), Move.QueueEvent(e))
    {
      queue := queue + [QueueRow(e, false)];
    }

    /** `flush_events`: one post of the pending rows, and the moves it makes by what the network does with it. */
    method FlushEvents(net: Network)
      requires waiting == None
      modifies this, store
      ensures Pending(old(queue), |old(queue)|) == [] ==> Value() == old(Value())
      ensures Pending(old(queue), |old(queue)|) != [] ==>
                Value() == Flushed(old(Value()), EventsAt(old(queue), Pending(old(queue), |old(queue)|)), net)
      ensures var processed := !net.PostLost? && (net.BrokenOff? ==> net.at >= |Pending(old(queue), |old(queue)|)|);
              && |queue| == |old(queue)|
              && (forall k: nat :: k < |queue| ==>
                    queue[k] == QueueRow(old(queue)[k].event, old(queue)[k].sent
                                         || (processed && !net.AnswerLost? && Due(old(queue), k))))
              && RecordsOnlyDue(old(queue), old(store.recorded), store.recorded)
              && (net.PostLost? ==> store.recorded == old(store.recorded))
              && (processed ==>
                    forall k: nat :: Due(old(queue), k) ==> Has(store.recorded, old(queue)[k].event.id))
    {
      hide Pending, RecordAll, UnsentCount, Has, RecordsOnlyDue, Due;
      FlushIsForDue(queue, store.recorded, 0);
      NothingNew(queue, store.recorded);
      ghost var s := Value();
      var pending := Pending(queue, |queue|);
      if pending == [] { return; }
      var events := EventsAt(queue, pending);
      FlushIsForDue(queue, store.recorded, if net.BrokenOff? then Min(net.at, |events|) else |events|);
      waiting, posts := Some(pending), posts + {events};
      assert Value() == Step(s, Send);
      var answered := false;
      if !net.PostLost? {
        var a, d;
        answered, a, d := store.RecordEvents(events, if net.BrokenOff? then Some(net.at) else None);
        assert events[..|events|] == events;
        if answered { completed := completed + {events}; }
      }
      if answered && !net.AnswerLost? { queue := MarkSent(queue, pending); }
      waiting := None;
    }
  }

  function Flushed(s: State, post: seq<Event>, net: Network): State {
    var sent := Step(s, Send);
    match net
    case PostLost => Step(sent, GiveUp)
    case BrokenOff(at) => Step(Step(sent, Process(post, Min(at, |post|))), if at < |post| then GiveUp else Reply202)
    case AnswerLost => Step(Step(sent, Process(post, |post|)), GiveUp)
    case Answered => Step(Step(sent, Process(post, |post|)), Reply202)
  }
}
