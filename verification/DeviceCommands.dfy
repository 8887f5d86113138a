/**
 Command delivery to the Raspberry: the server's command rows, the snapshots that carry them, the device's list of
 executed commands and the acknowledgements, over a network that loses, delays and repeats. A command's id is its
 position in `commands`. Running a command and marking it executed are one step.
 */
module DeviceCommands {
  import opened Common

  /** How many executed ids the device keeps. */
  const KEPT: nat := 500

  datatype CommandStatus = Pending | Delivered | Success | Failed | Expired

  datatype Command = Command(manual: bool, status: CommandStatus, expiresAt: int)

  /** An acknowledgement on the network; `again` marks the one sent for a command executed before. */
  datatype Ack = Ack(id: nat, ok: bool, again: bool)

  /** One physical run: its outcome, and the commands that were still deliverable or being worked on. */
  datatype Entry = Entry(id: nat, ok: bool, live: set<nat>)

  datatype Mode = Idle | Waiting(response: Option<seq<nat>>) | Working(todo: seq<nat>)

  datatype State = State(now: int, commands: seq<Command>, mode: Mode, executed: seq<nat>, acks: set<Ack>,
      log: seq<Entry>)

  datatype Event =
    | Tick(elapsed: nat)
    | Queue(manual: bool, ttl: nat)
    | Poll
    | Answer(notModified: bool)
    | Receive
    | GiveUp
    | Work(ok: bool, aborts: bool)
    | AckArrives(ack: Ack)

  predicate Open(c: Command) { c.status.Pending? || c.status.Delivered? }

  /** What `findDeliverableCommands` selects. */
  predicate Deliverable(commands: seq<Command>, now: int, id: nat) {
    id < |commands| && Open(commands[id]) && commands[id].expiresAt > now
  }

  /** The ids below `n` that are deliverable, oldest first. */
  function DeliverableIds(commands: seq<Command>, now: int, n: nat): seq<nat>
    requires n <= |commands|
  {
    if n == 0 then []
    else DeliverableIds(commands, now, n - 1) + (if Deliverable(commands, now, n - 1) then [n - 1] else [])
  }

  lemma {:induction false} DeliverableIdsExact(commands: seq<Command>, now: int, n: nat, id: nat)
    requires n <= |commands|
    ensures id in DeliverableIds(commands, now, n) <==> id < n && Deliverable(commands, now, id)
  {
    if n > 0 { DeliverableIdsExact(commands, now, n - 1, id); }
  }

  function ExpireOne(c: Command, now: int): Command {
    if Open(c) && c.expiresAt <= now then c.(status := Expired) else c
  }

  function ExpireStale(commands: seq<Command>, now: int): seq<Command> {
    seq(|commands|, i requires 0 <= i < |commands| => ExpireOne(commands[i], now))
  }

  /** PENDING to DELIVERED for the listed ids, touching no other row. */
  function MarkDelivered(commands: seq<Command>, ids: seq<nat>): seq<Command> {
    seq(|commands|, i requires 0 <= i < |commands| =>
      if i in ids && commands[i].status.Pending? then commands[i].(status := Delivered) else commands[i])
  }

  predicate ManualInFlight(commands: seq<Command>, now: int) {
    exists id :: 0 <= id < |commands| && commands[id].manual && Deliverable(commands, now, id)
  }

  /** The device keeps the newest ids only. */
  function Remember(executed: seq<nat>, id: nat): seq<nat> {
    var all := executed + [id];
    if |all| > KEPT then all[|all| - KEPT..] else all
  }

  function Batch(m: Mode): seq<nat> {
    match m
    case Idle => []
    case Waiting(r) => if r.Some? then r.value else []
    case Working(todo) => todo
  }

  function After(todo: seq<nat>, aborts: bool): Mode {
    if |todo| <= 1 || aborts then Idle else Working(todo[1..])
  }

  lemma {:induction false} AfterShrinks(todo: seq<nat>, aborts: bool)
    ensures forall id :: id in Batch(After(todo, aborts)) ==> id in Batch(Working(todo))
  {
  }

  /** Commands that can still reach the device, or that it is working on. */
  function Live(s: State): set<nat> {
    (set id | 0 <= id < |s.commands| && Deliverable(s.commands, s.now, id)) + (set id | id in Batch(s.mode))
  }

  /** One command of the batch: acknowledged again if already executed, otherwise run, marked and acknowledged. */
  function WorkStep(s: State, ok: bool, aborts: bool): State
    requires s.mode.Working? && s.mode.todo != []
  {
    var id := s.mode.todo[0];
    if id in s.executed then
      s.(acks := s.acks + {Ack(id, true, true)}, mode := After(s.mode.todo, aborts))
    else
      s.(log := s.log + [Entry(id, ok, Live(s))], executed := Remember(s.executed, id),
         acks := s.acks + {Ack(id, ok, false)}, mode := After(s.mode.todo, aborts))
  }

  /** The server answers a snapshot request; a device that stopped waiting never sees it. */
  function AnswerStep(s: State, notModified: bool): State {
    var kept := ExpireStale(s.commands, s.now);
    var ids := if notModified then [] else DeliverableIds(kept, s.now, |kept|);
    s.(commands := MarkDelivered(kept, ids),
       mode := if s.mode.Waiting? && s.mode.response.None? then Waiting(Some(ids)) else s.mode)
  }

  /** Conditional update: only a DELIVERED command can be acknowledged. */
  function Acknowledge(commands: seq<Command>, id: nat, ok: bool): seq<Command> {
    if id < |commands| && commands[id].status.Delivered?
    then commands[id := commands[id].(status := if ok then Success else Failed)] else commands
  }

  function Step(s: State, e: Event): State {
    match e
    case Tick(elapsed) => s.(now := s.now + elapsed)
    case Queue(manual, ttl) =>
      if manual && ManualInFlight(s.commands, s.now) then s
      else s.(commands := s.commands + [Command(manual, Pending, s.now + ttl)])
    case Poll => if s.mode.Idle? then s.(mode := Waiting(None)) else s
    case Answer(notModified) => AnswerStep(s, notModified)
    case Receive =>
      if s.mode.Waiting? && s.mode.response.Some? then
        s.(mode := if s.mode.response.value == [] then Idle else Working(s.mode.response.value))
      else s
    case GiveUp => if s.mode.Waiting? then s.(mode := Idle) else s
    case Work(ok, aborts) => if s.mode.Working? && s.mode.todo != [] then WorkStep(s, ok, aborts) else s
    case AckArrives(a) => if a in s.acks then s.(commands := Acknowledge(s.commands, a.id, a.ok)) else s
  }

  // ---------------------------------------------------------------------
  // The invariant
  // ---------------------------------------------------------------------

  /** The device remembers exactly the ids of its last runs. */
  predicate Remembers(executed: seq<nat>, log: seq<Entry>) {
    && |executed| == Min(KEPT, |log|)
    && forall k :: 0 <= k < |executed| ==> executed[k] == log[|log| - |executed| + k].id
  }

  /** Two runs of one command are more than KEPT apart, and the command was live at every run from one to the other. */
  predicate FarApart(log: seq<Entry>) {
    forall i, j :: 0 <= i < j < |log| && log[i].id == log[j].id ==>
      j - i > KEPT && LiveBetween(log, i, j + 1)
  }

  predicate LiveBetween(log: seq<Entry>, i: nat, j: nat)
    requires i < |log| && j <= |log|
  {
    forall k :: i <= k < j ==> log[i].id in log[k].live
  }

  /** A command that was run and is still live has been live ever since. */
  predicate StayedLive(s: State) {
    forall i :: 0 <= i < |s.log| && s.log[i].id in Live(s) ==> LiveBetween(s.log, i, |s.log|)
  }

  predicate Ran(log: seq<Entry>, id: nat) { exists k :: 0 <= k < |log| && log[k].id == id }

  predicate RanWith(log: seq<Entry>, id: nat, ok: bool) {
    exists k :: 0 <= k < |log| && log[k].id == id && log[k].ok == ok
  }

  /** A first acknowledgement reports the run; a repeated one says SUCCESS whatever the run did. */
  predicate AckOk(log: seq<Entry>, a: Ack) {
    if a.again then a.ok && Ran(log, a.id) else RanWith(log, a.id, a.ok)
  }

  predicate StatusOk(log: seq<Entry>, c: Command, id: nat) {
    && (c.status.Success? ==> Ran(log, id))
    && (c.status.Failed? ==> RanWith(log, id, false))
  }

  predicate IdsExist(s: State) {
    && (forall k :: 0 <= k < |s.log| ==> s.log[k].id < |s.commands|)
    && (forall id :: id in Batch(s.mode) ==> id < |s.commands|)
  }

  predicate OneManual(commands: seq<Command>, now: int) {
    forall i, j :: 0 <= i < j < |commands| && commands[i].manual && commands[j].manual ==>
      !(Deliverable(commands, now, i) && Deliverable(commands, now, j))
  }

  predicate Inv(s: State) {
    && Remembers(s.executed, s.log) && FarApart(s.log) && StayedLive(s) && IdsExist(s)
    && (forall a :: a in s.acks ==> AckOk(s.log, a))
    && (forall id :: 0 <= id < |s.commands| ==> StatusOk(s.log, s.commands[id], id))
    && OneManual(s.commands, s.now)
  }

  // ---------------------------------------------------------------------
  // Preservation
  // ---------------------------------------------------------------------

  /** A step that runs nothing and makes nothing already run live again keeps the history facts. */
  lemma {:induction false} QuietKeeps(s: State, t: State)
    requires Inv(s) && t.log == s.log && t.executed == s.executed && |s.commands| <= |t.commands|
    requires forall id :: id in Live(t) && id < |s.commands| ==> id in Live(s)
    requires forall id :: id in Batch(t.mode) ==> id < |t.commands|
    requires forall a :: a in t.acks ==> AckOk(t.log, a)
    requires forall id :: 0 <= id < |t.commands| ==> StatusOk(t.log, t.commands[id], id)
    requires OneManual(t.commands, t.now)
    ensures Inv(t)
  {
    hide Live, AckOk, StatusOk, OneManual, FarApart, LiveBetween, Deliverable, Batch;
  }

  lemma {:induction false} AnswerKeeps(s: State, notModified: bool)
    requires Inv(s)
    ensures Inv(Step(s, Answer(notModified)))
  {
    hide AckOk, FarApart, LiveBetween, StayedLive, Remembers, DeliverableIds;
    var t := Step(s, Answer(notModified));
    var kept := ExpireStale(s.commands, s.now);
    forall id | id in DeliverableIds(kept, s.now, |kept|)
      ensures id < |s.commands| && Deliverable(s.commands, s.now, id) {
      DeliverableIdsExact(kept, s.now, |kept|, id);
    }
    forall id: nat | id < |s.commands|
      ensures Deliverable(t.commands, t.now, id) <==> Deliverable(s.commands, s.now, id) {
    }
    QuietKeeps(s, t);
  }

  lemma {:induction false} QueueKeeps(s: State, manual: bool, ttl: nat)
    requires Inv(s)
    ensures Inv(Step(s, Queue(manual, ttl)))
  {
    hide AckOk, FarApart, LiveBetween, StayedLive, Remembers;
    var t := Step(s, Queue(manual, ttl));
    forall id: nat | id < |s.commands|
      ensures Deliverable(t.commands, t.now, id) <==> Deliverable(s.commands, s.now, id) {
    }
    QuietKeeps(s, t);
  }

  lemma {:induction false} AckKeeps(s: State, a: Ack)
    requires Inv(s)
    ensures Inv(Step(s, AckArrives(a)))
  {
    hide FarApart, LiveBetween, StayedLive, Remembers;
    var t := Step(s, AckArrives(a));
    if a in s.acks { assert AckOk(s.log, a); }
    forall id: nat | id < |s.commands|
      ensures Deliverable(t.commands, t.now, id) ==> Deliverable(s.commands, s.now, id) {
    }
    QuietKeeps(s, t);
  }

  lemma {:induction false} DeviceKeeps(s: State, e: Event)
    requires Inv(s) && (e.Tick? || e.Poll? || e.Receive? || e.GiveUp?)
    ensures Inv(Step(s, e))
  {
    hide AckOk, StatusOk, FarApart, LiveBetween, StayedLive, Remembers;
    var t := Step(s, e);
    assert Batch(t.mode) == Batch(s.mode) || Batch(t.mode) == [];
    forall id: nat | id < |s.commands|
      ensures Deliverable(t.commands, t.now, id) ==> Deliverable(s.commands, s.now, id) {
    }
    QuietKeeps(s, t);
  }

  lemma {:induction false} ReAckKeeps(s: State, ok: bool, aborts: bool)
    requires Inv(s) && s.mode.Working? && s.mode.todo != [] && s.mode.todo[0] in s.executed
    ensures Inv(WorkStep(s, ok, aborts))
  {
    hide StatusOk, FarApart, LiveBetween, StayedLive, OneManual;
    var id := s.mode.todo[0];
    var t := WorkStep(s, ok, aborts);
    var k :| 0 <= k < |s.executed| && s.executed[k] == id;
    assert s.log[|s.log| - |s.executed| + k].id == id;
    assert AckOk(s.log, Ack(id, true, true));
    AfterShrinks(s.mode.todo, aborts);
    QuietKeeps(s, t);
  }

  lemma {:induction false} RecentIsRemembered(executed: seq<nat>, log: seq<Entry>, i: nat)
    requires Remembers(executed, log) && i < |log| && |log| - i <= KEPT
    ensures log[i].id in executed
  {
    assert executed[i - (|log| - |executed|)] == log[i].id;
  }

  lemma {:induction false} RememberStep(executed: seq<nat>, log: seq<Entry>, e: Entry)
    requires Remembers(executed, log)
    ensures Remembers(Remember(executed, e.id), log + [e])
  {
  }

  lemma {:induction false} LogGrows(log: seq<Entry>, e: Entry, id: nat, ok: bool)
    ensures Ran(log, id) ==> Ran(log + [e], id)
    ensures RanWith(log, id, ok) ==> RanWith(log + [e], id, ok)
  {
    var t := log + [e];
    if Ran(log, id) {
      var k :| 0 <= k < |log| && log[k].id == id;
      assert t[k].id == id;
    }
    if RanWith(log, id, ok) {
      var k :| 0 <= k < |log| && log[k].id == id && log[k].ok == ok;
      assert t[k].id == id && t[k].ok == ok;
    }
  }

  lemma {:induction false} RunKeepsHistory(s: State, ok: bool, aborts: bool)
    requires Inv(s) && s.mode.Working? && s.mode.todo != [] && s.mode.todo[0] !in s.executed
    ensures FarApart(WorkStep(s, ok, aborts).log) && StayedLive(WorkStep(s, ok, aborts))
  {
    hide AckOk, StatusOk, OneManual, Deliverable, Remembers;
    var id := s.mode.todo[0];
    var t := WorkStep(s, ok, aborts);
    var n := |s.log|;
    assert id in Live(s) && Live(t) <= Live(s);
    forall i | 0 <= i < n && t.log[i].id in Live(s) ensures LiveBetween(t.log, i, n + 1) {
      assert LiveBetween(s.log, i, n);
    }
    forall i, j | 0 <= i < j < |t.log| && t.log[i].id == t.log[j].id
      ensures j - i > KEPT && LiveBetween(t.log, i, j + 1) {
      if j < n {
        assert s.log[i].id == s.log[j].id && LiveBetween(s.log, i, j + 1);
      } else {
        if n - i <= KEPT { RecentIsRemembered(s.executed, s.log, i); }
      }
    }
  }

  lemma {:induction false} RunKeeps(s: State, ok: bool, aborts: bool)
    requires Inv(s) && s.mode.Working? && s.mode.todo != [] && s.mode.todo[0] !in s.executed
    ensures Inv(WorkStep(s, ok, aborts))
  {
    hide FarApart, LiveBetween, StayedLive, OneManual, Deliverable, Live, Remembers, Remember;
    var id := s.mode.todo[0];
    var t := WorkStep(s, ok, aborts);
    var e := Entry(id, ok, Live(s));
    RunKeepsHistory(s, ok, aborts);
    RememberStep(s.executed, s.log, e);
    AfterShrinks(s.mode.todo, aborts);
    assert id in Batch(s.mode) && t.log == s.log + [e];
    forall a | a in t.acks ensures AckOk(t.log, a) {
      LogGrows(s.log, e, a.id, a.ok);
      if a == Ack(id, ok, false) { assert t.log[|s.log|].id == id; }
    }
    forall c | 0 <= c < |t.commands| ensures StatusOk(t.log, t.commands[c], c) {
      LogGrows(s.log, e, c, false);
    }
  }

  lemma {:induction false} StepKeeps(s: State, e: Event)
    requires Inv(s)
    ensures Inv(Step(s, e))
  {
    hide Inv, WorkStep, AnswerStep, Acknowledge;
    match e
    case Tick(_) => DeviceKeeps(s, e);
    case Queue(manual, ttl) => QueueKeeps(s, manual, ttl);
    case Poll => DeviceKeeps(s, e);
    case Answer(notModified) => AnswerKeeps(s, notModified);
    case Receive => DeviceKeeps(s, e);
    case GiveUp => DeviceKeeps(s, e);
    case Work(ok, aborts) =>
      if s.mode.Working? && s.mode.todo != [] {
        if s.mode.todo[0] in s.executed { ReAckKeeps(s, ok, aborts); } else { RunKeeps(s, ok, aborts); }
      }
    case AckArrives(a) => AckKeeps(s, a);
  }

  // ---------------------------------------------------------------------
  // Runs
  // ---------------------------------------------------------------------

  predicate Initial(s: State) {
    s.commands == [] && s.mode.Idle? && s.executed == [] && s.acks == {} && s.log == []
  }

  predicate IsRun(states: seq<State>, events: seq<Event>) {
    && |states| == |events| + 1 && Initial(states[0])
    && forall k :: 0 <= k < |events| ==> states[k + 1] == Step(states[k], events[k])
  }

  lemma {:induction false} RunKeepsInv(states: seq<State>, events: seq<Event>, k: nat)
    requires IsRun(states, events) && k < |states|
    ensures Inv(states[k])
  {
    hide Step;
    if k > 0 {
      hide Inv;
      RunKeepsInv(states, events, k - 1);
      StepKeeps(states[k - 1], events[k - 1]);
    }
  }

  /** How many runs of other commands after the run `i`, below `n`, happened while command `log[i].id` was live. */
  function OthersWhileLive(log: seq<Entry>, i: nat, n: nat): nat
    requires i < n <= |log|
  {
    if n == i + 1 then 0
    else OthersWhileLive(log, i, n - 1) + (if log[i].id in log[n - 1].live && log[n - 1].id != log[i].id then 1 else 0)
  }

  lemma {:induction false} OthersGrow(log: seq<Entry>, i: nat, m: nat, n: nat)
    requires i < m <= n <= |log|
    ensures OthersWhileLive(log, i, m) <= OthersWhileLive(log, i, n)
  {
    if m < n { OthersGrow(log, i, m, n - 1); }
  }

  lemma {:induction false} AllOthersCount(log: seq<Entry>, i: nat, n: nat)
    requires i < n <= |log| && LiveBetween(log, i, n) && forall k :: i < k < n ==> log[k].id != log[i].id
    ensures OthersWhileLive(log, i, n) == n - i - 1
  {
    if n > i + 1 { AllOthersCount(log, i, n - 1); }
  }

  /** The first later run of the same command. */
  lemma {:induction false} FirstRepeat(log: seq<Entry>, i: nat, j: nat) returns (m: nat)
    requires i < j < |log| && log[i].id == log[j].id
    ensures i < m <= j && log[m].id == log[i].id && forall k :: i < k < m ==> log[k].id != log[i].id
  {
    if k :| i < k < j && log[k].id == log[i].id {
      m := FirstRepeat(log, i, k);
    } else {
      m := j;
    }
  }

  /**
   No command is physically run twice, provided fewer than 500 other commands are run while it can still reach the
   device.
   */
  lemma {:induction false} NeverRunTwice(states: seq<State>, events: seq<Event>, k: nat, i: nat, j: nat)
    requires IsRun(states, events) && k < |states| && i < j < |states[k].log|
    requires OthersWhileLive(states[k].log, i, |states[k].log|) < KEPT
    ensures states[k].log[i].id != states[k].log[j].id
  {
    hide IsRun, OthersWhileLive, Remembers, StayedLive, AckOk, StatusOk, OneManual, LiveBetween;
    RunKeepsInv(states, events, k);
    var log := states[k].log;
    if log[i].id == log[j].id {
      var m := FirstRepeat(log, i, j);
      assert LiveBetween(log, i, m) by { assert LiveBetween(log, i, m + 1); LiveShorter(log, i, m); }
      AllOthersCount(log, i, m);
      OthersGrow(log, i, m, |log|);
    }
  }

  lemma {:induction false} LiveShorter(log: seq<Entry>, i: nat, m: nat)
    requires i < m < |log| && LiveBetween(log, i, m + 1)
    ensures LiveBetween(log, i, m)
  {
  }

  /** A command shown as SUCCESS or FAILED was run, and FAILED is only shown for a run that failed. */
  lemma {:induction false} FinishedWasRun(states: seq<State>, events: seq<Event>, k: nat, id: nat)
    requires IsRun(states, events) && k < |states| && id < |states[k].commands|
    requires states[k].commands[id].status.Success? || states[k].commands[id].status.Failed?
    ensures Ran(states[k].log, id)
    ensures states[k].commands[id].status.Failed? ==> RanWith(states[k].log, id, false)
  {
    hide IsRun, Remembers, StayedLive, FarApart, AckOk, OneManual;
    RunKeepsInv(states, events, k);
    assert StatusOk(states[k].log, states[k].commands[id], id);
  }

  lemma {:induction false} OnlyRun(log: seq<Entry>, id: nat) returns (n: nat)
    requires Ran(log, id)
    requires forall i, j :: 0 <= i < j < |log| && log[i].id == id ==> log[j].id != id
    ensures n < |log| && forall m :: 0 <= m < |log| ==> (log[m].id == id <==> m == n)
  {
    n :| 0 <= n < |log| && log[n].id == id;
  }

  /**
   A command shown as SUCCESS or FAILED was run exactly once, and FAILED says how that went, provided fewer than 500
   others were run while it could still reach the device.
   */
  lemma {:induction false} FinishedRanExactlyOnce(states: seq<State>, events: seq<Event>, k: nat, id: nat)
      returns (n: nat)
    requires IsRun(states, events) && k < |states| && id < |states[k].commands|
    requires states[k].commands[id].status.Success? || states[k].commands[id].status.Failed?
    requires var log := states[k].log;
             forall i: nat :: i < |log| && log[i].id == id ==> OthersWhileLive(log, i, |log|) < KEPT
    ensures n < |states[k].log| && forall m :: 0 <= m < |states[k].log| ==> (states[k].log[m].id == id <==> m == n)
    ensures states[k].commands[id].status.Failed? ==> !states[k].log[n].ok
  {
    hide IsRun, OthersWhileLive;
    FinishedWasRun(states, events, k, id);
    var log := states[k].log;
    forall i: nat, j: nat | i < j < |log| && log[i].id == id ensures log[j].id != id {
      NeverRunTwice(states, events, k, i, j);
    }
    n := OnlyRun(log, id);
  }

  predicate Final(st: CommandStatus) { st.Success? || st.Failed? || st.Expired? }

  lemma {:induction false} FinalStays(s: State, e: Event, id: nat)
    requires id < |s.commands| && Final(s.commands[id].status)
    ensures id < |Step(s, e).commands| && Step(s, e).commands[id] == s.commands[id]
  {
    hide Live, DeliverableIds, Deliverable, ManualInFlight, Remember;
  }

  /** SUCCESS, FAILED and EXPIRED are for ever, and no command ever disappears. */
  lemma {:induction false} FinishedIsForEver(states: seq<State>, events: seq<Event>, k: nat, l: nat, id: nat)
    requires IsRun(states, events) && k <= l < |states| && id < |states[k].commands|
             && Final(states[k].commands[id].status)
    ensures id < |states[l].commands| && states[l].commands[id] == states[k].commands[id]
  {
    hide Step;
    if k < l {
      FinishedIsForEver(states, events, k, l - 1, id);
      FinalStays(states[l - 1], events[l - 1], id);
    }
  }

  /** Every acknowledgement on the network is about a command that was run, and a first one tells how it went. */
  lemma {:induction false} FirstAckIsTrue(states: seq<State>, events: seq<Event>, k: nat, a: Ack)
    requires IsRun(states, events) && k < |states| && a in states[k].acks
    ensures Ran(states[k].log, a.id)
    ensures if a.again then a.ok else RanWith(states[k].log, a.id, a.ok)
  {
    hide IsRun, Remembers, StayedLive, FarApart, StatusOk, OneManual;
    RunKeepsInv(states, events, k);
    assert AckOk(states[k].log, a);
  }

  /** Acknowledgement `a`, arriving as event `j`, is the one that made command `id` SUCCESS or FAILED. */
  predicate Finishes(states: seq<State>, events: seq<Event>, j: nat, id: nat, a: Ack) {
    && j < |events| && j + 1 < |states| && events[j] == AckArrives(a) && a in states[j].acks && a.id == id
    && id < |states[j].commands| && states[j].commands[id].status.Delivered?
    && id < |states[j + 1].commands| && states[j + 1].commands[id].status == if a.ok then Success else Failed
  }

  /** Only an acknowledgement makes a command SUCCESS or FAILED. */
  lemma {:induction false} OnlyAcksFinish(s: State, e: Event, id: nat)
    requires id < |Step(s, e).commands|
    requires Step(s, e).commands[id].status.Success? || Step(s, e).commands[id].status.Failed?
    requires id < |s.commands| ==> !s.commands[id].status.Success? && !s.commands[id].status.Failed?
    ensures e.AckArrives? && e.ack in s.acks && e.ack.id == id && id < |s.commands| && s.commands[id].status.Delivered?
    ensures Step(s, e).commands[id].status == if e.ack.ok then Success else Failed
  {
    hide Live, DeliverableIds, Deliverable, ManualInFlight, Remember;
  }

  /** Every finished command has the acknowledgement that finished it. */
  lemma {:induction false} FinishingAck(states: seq<State>, events: seq<Event>, k: nat, id: nat)
      returns (j: nat, a: Ack)
    requires IsRun(states, events) && k < |states| && id < |states[k].commands|
    requires states[k].commands[id].status.Success? || states[k].commands[id].status.Failed?
    ensures j < k && Finishes(states, events, j, id, a)
    ensures states[k].commands[id].status == states[j + 1].commands[id].status
  {
    hide Step;
    if id < |states[k - 1].commands| && Final(states[k - 1].commands[id].status) {
      FinalStays(states[k - 1], events[k - 1], id);
      j, a := FinishingAck(states, events, k - 1, id);
    } else {
      OnlyAcksFinish(states[k - 1], events[k - 1], id);
      j, a := k - 1, events[k - 1].ack;
    }
  }

  /** No run and no acknowledgement is ever forgotten by the history. */
  lemma {:induction false} HistoryGrows(states: seq<State>, events: seq<Event>, j: nat, k: nat)
    requires IsRun(states, events) && j <= k < |states|
    ensures states[j].log <= states[k].log && states[j].acks <= states[k].acks
  {
    hide Live, DeliverableIds, Deliverable, ManualInFlight, Remember;
    if j < k { HistoryGrows(states, events, j, k - 1); }
  }

  /** Every run has its own acknowledgement on the network. */
  lemma {:induction false} RunsAreReported(states: seq<State>, events: seq<Event>, k: nat, n: nat)
    requires IsRun(states, events) && k < |states| && n < |states[k].log|
    ensures Ack(states[k].log[n].id, states[k].log[n].ok, false) in states[k].acks
  {
    hide Live, DeliverableIds, Deliverable, ManualInFlight, Remember;
    if k > 0 {
      HistoryGrows(states, events, k - 1, k);
      if n < |states[k - 1].log| { RunsAreReported(states, events, k - 1, n); }
    }
  }

  lemma {:induction false} RanIsRanWith(log: seq<Entry>, id: nat) returns (n: nat)
    requires Ran(log, id)
    ensures n < |log| && log[n].id == id && RanWith(log, id, log[n].ok)
  {
    n :| 0 <= n < |log| && log[n].id == id;
  }

  lemma {:induction false} RanWithStays(log: seq<Entry>, later: seq<Entry>, id: nat, ok: bool)
    requires log <= later && RanWith(log, id, ok)
    ensures RanWith(later, id, ok)
  {
    var n :| 0 <= n < |log| && log[n].id == id && log[n].ok == ok;
    assert later[n] == log[n];
  }

  /**
   What SUCCESS and FAILED are worth: every finished command was finished by some acknowledgement `a`. A first one
   tells the truth. A command of which no run succeeded is shown as SUCCESS exactly when a repeated one finished it,
   and then the true report was on the network, unheard.
   */
  lemma {:induction false} SuccessIsFalseExactly(states: seq<State>, events: seq<Event>, k: nat, id: nat)
      returns (j: nat, a: Ack)
    requires IsRun(states, events) && k < |states| && id < |states[k].commands|
    requires states[k].commands[id].status.Success? || states[k].commands[id].status.Failed?
    ensures j < k && Finishes(states, events, j, id, a) && states[k].commands[id].status == if a.ok then Success
            else Failed
    ensures !a.again ==> RanWith(states[k].log, id, a.ok)
    ensures !RanWith(states[k].log, id, true) ==> (states[k].commands[id].status.Success? <==> a.again)
    ensures !RanWith(states[k].log, id, true) ==> Ack(id, false, false) in states[j].acks
  {
    hide Step, IsRun, Ran, AckOk;
    j, a := FinishingAck(states, events, k, id);
    FirstAckIsTrue(states, events, j, a);
    HistoryGrows(states, events, j, k);
    if !a.again { RanWithStays(states[j].log, states[k].log, id, a.ok); }
    var n := RanIsRanWith(states[j].log, id);
    RunsAreReported(states, events, j, n);
    assert states[k].log[n] == states[j].log[n];
  }

  /** The back-office never has two manual commands in flight. */
  lemma {:induction false} OneManualAtATime(states: seq<State>, events: seq<Event>, k: nat, i: nat, j: nat)
    requires IsRun(states, events) && k < |states| && i < j < |states[k].commands|
    requires states[k].commands[i].manual && states[k].commands[j].manual
    ensures !(Deliverable(states[k].commands, states[k].now, i) && Deliverable(states[k].commands, states[k].now, j))
  {
    hide IsRun, Remembers, StayedLive, FarApart, StatusOk, AckOk, Deliverable;
    RunKeepsInv(states, events, k);
  }

  /**
   SUCCESS is not a report of the run: when the acknowledgement of a failed run is lost and the command is delivered
   again, the second acknowledgement says SUCCESS.
   */
  lemma {:induction false} FailedRunShownAsSuccess(s: State)
    requires Initial(s)
    ensures exists states: seq<State>, events: seq<Event> ::
              && IsRun(states, events) && |states[|events|].commands| == 1 && |states[|events|].log| == 1
              && states[|events|].commands[0].status.Success? && !states[|events|].log[0].ok
  {
    hide Step;
    var first := [Queue(true, 30), Poll, Answer(false), Receive, Work(false, true)];
    var again := [Poll, Answer(false), Receive, Work(true, false), AckArrives(Ack(0, true, true))];
    var a := FirstRunFails(s);
    var b := SecondAckSaysSuccess(a[5]);
    var states, events := a + b[1..], first + again;
    forall k | 0 <= k < 10 ensures states[k + 1] == Step(states[k], events[k]) {
      if k < 5 {
        assert a[k + 1] == Step(a[k], first[k]);
      } else {
        assert b[k - 4] == Step(b[k - 5], again[k - 5]);
        assert states[k] == b[k - 5];
      }
    }
    assert IsRun(states, events) && states[10] == b[5];
  }

  lemma {:induction false} FirstRunFails(s: State) returns (a: seq<State>)
    requires Initial(s)
    ensures var first := [Queue(true, 30), Poll, Answer(false), Receive, Work(false, true)];
            |a| == 6 && a[0] == s && forall k :: 0 <= k < 5 ==> a[k + 1] == Step(a[k], first[k])
    ensures Redelivery(a[5])
  {
    hide Live;
    var s1 := Step(s, Queue(true, 30));
    var s2 := Step(s1, Poll);
    FirstDelivered(s2);
    var s3 := Step(s2, Answer(false));
    var s4 := Step(s3, Receive);
    var s5 := Step(s4, Work(false, true));
    assert s5.log == [Entry(0, false, Live(s4))] && s5.executed == [0];
    a := [s, s1, s2, s3, s4, s5];
  }

  /** The command ran and failed, and its acknowledgement has not arrived. */
  predicate Redelivery(s: State) {
    && |s.commands| == 1 && s.commands[0].status.Delivered? && s.commands[0].expiresAt > s.now
    && s.mode.Idle? && s.executed == [0] && |s.log| == 1 && !s.log[0].ok
  }

  lemma {:induction false} SecondAckSaysSuccess(s: State) returns (b: seq<State>)
    requires Redelivery(s)
    ensures var again := [Poll, Answer(false), Receive, Work(true, false), AckArrives(Ack(0, true, true))];
            |b| == 6 && b[0] == s && forall k :: 0 <= k < 5 ==> b[k + 1] == Step(b[k], again[k])
    ensures |b[5].commands| == 1 && b[5].commands[0].status.Success? && b[5].log == s.log
  {
    hide Live;
    var s1 := Step(s, Poll);
    FirstDelivered(s1);
    var s2 := Step(s1, Answer(false));
    var s3 := Step(s2, Receive);
    var s4 := Step(s3, Work(true, false));
    assert s4.log == s.log && Ack(0, true, true) in s4.acks;
    var s5 := Step(s4, AckArrives(Ack(0, true, true)));
    b := [s, s1, s2, s3, s4, s5];
  }

  lemma {:induction false} FirstDelivered(s: State)
    requires |s.commands| == 1 && Deliverable(s.commands, s.now, 0) && s.mode == Waiting(None)
    ensures Step(s, Answer(false)) == s.(commands := [s.commands[0].(status := Delivered)], mode := Waiting(Some([0])))
  {
    var kept := ExpireStale(s.commands, s.now);
    assert kept == s.commands;
    assert DeliverableIds(kept, s.now, 1) == DeliverableIds(kept, s.now, 0) + [0] == [0];
  }
}
