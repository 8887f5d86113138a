/**
 The bound of NeverRunTwice is exact: with 500 other commands run in between, the device has forgotten the first one and
 runs it again.
 */
module CommandBound {
  import opened Common
  import opened Reachability
  import opened DeviceCommands

  /** Every command is open, with `ttl` seconds left. */
  predicate AllOpen(s: State, ttl: nat) {
    forall id :: 0 <= id < |s.commands| ==> Open(s.commands[id]) && s.commands[id].expiresAt == s.now + ttl
  }

  lemma {:induction false} QueueMany(s: State, t: State, n: nat) returns (u: State)
    requires Reaches(Step, s, t) && AllOpen(t, 1)
    ensures Reaches(Step, s, u) && AllOpen(u, 1) && u == t.(commands := u.commands) && |u.commands| == |t.commands| + n
  {
    hide Reaches;
    u := t;
    if n > 0 {
      u := QueueMany(s, t, n - 1);
      ReachesNext(Step, s, u, Queue(false, 1));
      u := Step(u, Queue(false, 1));
    }
  }

  lemma {:induction false} AllDeliverable(commands: seq<Command>, now: int, n: nat)
    requires n <= |commands| && forall id :: 0 <= id < n ==> Deliverable(commands, now, id)
    ensures DeliverableIds(commands, now, n) == seq(n, k requires 0 <= k => k)
  {
    if n > 0 { AllDeliverable(commands, now, n - 1); }
  }

  /** A poll that hands out every command. */
  lemma {:induction false} FetchAll(s: State, t: State) returns (u: State)
    requires Reaches(Step, s, t) && AllOpen(t, 1) && t.mode.Idle? && t.commands != []
    ensures Reaches(Step, s, u) && AllOpen(u, 1) && u == t.(commands := u.commands, mode := u.mode)
            && |u.commands| == |t.commands|
    ensures u.mode == Working(seq(|t.commands|, k requires 0 <= k => k))
  {
    hide Reaches, DeliverableIds;
    ReachesNext(Step, s, t, Poll);
    var a := Step(t, Poll);
    var kept := ExpireStale(a.commands, a.now);
    assert kept == a.commands;
    AllDeliverable(kept, a.now, |kept|);
    ReachesNext(Step, s, a, Answer(false));
    var b := Step(a, Answer(false));
    ReachesNext(Step, s, b, Receive);
    u := Step(b, Receive);
  }

  predicate Fresh(todo: seq<nat>, executed: seq<nat>) {
    && (forall i, j :: 0 <= i < j < |todo| ==> todo[i] != todo[j])
    && (forall i :: 0 <= i < |todo| ==> todo[i] !in executed)
  }

  lemma {:induction false} WorkOne(t: State)
    requires t.mode.Working? && t.mode.todo != [] && Fresh(t.mode.todo, t.executed)
    ensures var u := Step(t, Work(true, false));
            && u.log == t.log + [Entry(t.mode.todo[0], true, Live(t))] && u.mode == After(t.mode.todo, false)
            && u.executed == Remember(t.executed, t.mode.todo[0]) && u.commands == t.commands && u.now == t.now
            && Fresh(t.mode.todo[1..], u.executed)
  {
    hide Live;
  }

  /** A batch of fresh commands is run one after the other. */
  lemma {:induction false} WorkMany(s: State, t: State) returns (u: State)
    requires Reaches(Step, s, t) && t.mode.Working? && t.mode.todo != [] && Fresh(t.mode.todo, t.executed)
             && Remembers(t.executed, t.log)
    ensures Reaches(Step, s, u) && u.mode.Idle? && u.commands == t.commands && u.now == t.now
            && Remembers(u.executed, u.log)
    ensures |u.log| == |t.log| + |t.mode.todo| && u.log[..|t.log|] == t.log
    ensures forall k :: 0 <= k < |t.mode.todo| ==> u.log[|t.log| + k].id == t.mode.todo[k]
    decreases t.mode.todo
  {
    hide Reaches, Step, Remembers, Remember, Live, Fresh;
    var todo := t.mode.todo;
    var e := Entry(todo[0], true, Live(t));
    ReachesNext(Step, s, t, Work(true, false));
    WorkOne(t);
    RememberStep(t.executed, t.log, e);
    u := Step(t, Work(true, false));
    if |todo| > 1 {
      var v := u;
      u := WorkMany(s, v);
      assert u.log[..|t.log|] == v.log[..|t.log|];
      forall k | 0 <= k < |todo| ensures u.log[|t.log| + k].id == todo[k] {
        if k > 0 { assert v.mode.todo[k - 1] == todo[k]; } else { assert u.log[|t.log|] == v.log[|t.log|]; }
      }
    }
  }

  /** One command queued, fetched and run, its acknowledgement lost. */
  lemma {:induction false} FirstRun(s: State) returns (u: State)
    requires Initial(s)
    ensures Reaches(Step, s, u) && AllOpen(u, 1) && |u.commands| == 1 && u.mode.Idle? && u.executed == [0]
            && |u.log| == 1
            && u.log[0].id == 0
  {
    hide Reaches, Live, Step;
    ReachesItself(Step, s);
    var a := QueueMany(s, s, 1);
    var b := FetchAll(s, a);
    assert b.mode.todo == [0];
    WorkOne(b);
    ReachesNext(Step, s, b, Work(true, false));
    u := Step(b, Work(true, false));
  }

  /** The remembered command is acknowledged again; the 500 new ones are run. */
  lemma {:induction false} FiveHundredMore(s: State, t: State) returns (u: State)
    requires Reaches(Step, s, t) && AllOpen(t, 1) && |t.commands| == 1 && t.mode.Idle? && t.executed == [0]
             && |t.log| == 1
             && t.log[0].id == 0
    ensures Reaches(Step, s, u) && AllOpen(u, 1) && |u.commands| == 501 && u.mode.Idle? && Remembers(u.executed, u.log)
    ensures |u.log| == 501 && u.log[0].id == 0 && forall k :: 1 <= k < 501 ==> u.log[k].id == k
  {
    hide Reaches, Live, Step;
    var a := QueueMany(s, t, 500);
    var b := FetchAll(s, a);
    ReachesNext(Step, s, b, Work(true, false));
    var c := Step(b, Work(true, false));
    SkipsFirst(b);
    assert Remembers(c.executed, c.log);
    u := WorkMany(s, c);
    assert u.log[..1][0] == u.log[0];
    forall k | 1 <= k < 501 ensures u.log[k].id == k {
      assert u.log[1 + (k - 1)].id == c.mode.todo[k - 1];
    }
  }

  lemma {:induction false} SkipsFirst(b: State)
    requires b.mode == Working(seq(501, k requires 0 <= k => k)) && b.executed == [0]
    ensures var c := Step(b, Work(true, false));
            && c == b.(acks := c.acks, mode := c.mode) && c.mode == Working(seq(500, k requires 0 <= k => k + 1))
              && Fresh(c.mode.todo, c.executed)
  {
    hide Live;
    assert b.mode.todo[0] == 0;
    assert b.mode.todo[1..] == seq(500, k requires 0 <= k => k + 1);
  }

  /** From any fresh start a run exists in which one command is run twice, with exactly 500 others in between. */
  lemma {:induction false} FiveHundredOthersCanRepeat(s: State)
    requires Initial(s)
    ensures exists t :: Reaches(Step, s, t) && |t.log| == KEPT + 2 && t.log[0].id == t.log[KEPT + 1].id
  {
    hide Reaches, Live, Step;
    var a := FirstRun(s);
    var b := FiveHundredMore(s, a);
    var c := FetchAll(s, b);
    assert 0 !in c.executed;
    ReachesNext(Step, s, c, Work(true, false));
    var d := Step(c, Work(true, false));
    assert c.mode.todo[0] == 0;
    RunsHead(c);
  }

  lemma {:induction false} RunsHead(c: State)
    requires c.mode.Working? && c.mode.todo != [] && c.mode.todo[0] !in c.executed
    ensures Step(c, Work(true, false)).log == c.log + [Entry(c.mode.todo[0], true, Live(c))]
  {
    hide Live;
  }
}
