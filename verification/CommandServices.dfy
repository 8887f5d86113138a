/**
 Command delivery as it runs: the server's command rows, and the Raspberry's service that polls, executes and
 acknowledges. Every method is a step, or a sequence of steps, of DeviceCommands.
 */
module CommandServices {
  import opened Common
  import opened DeviceCommands

  datatype QueueAnswer = Queued(id: nat) | DeviceNotFound | DeviceOffline | AlreadyPending

  datatype AckAnswer = Acknowledged | CommandNotFound | CommandExpired

  /** What the server knows of the Raspberry. */
  datatype Device = Device(active: bool, lastSeenAt: Option<int>)

  datatype SnapshotAnswer = NotModified(revision: int) | Content(revision: int, ids: seq<nat>)

  /** What a snapshot of these rows carries now. */
  function IdsNow(commands: seq<Command>, now: int): seq<nat> {
    var kept := ExpireStale(commands, now);
    DeliverableIds(kept, now, |kept|)
  }

  /** Not finished in any way. */
  predicate Waits(c: Command) { c.status.Pending? || c.status.Delivered? }

  lemma {:induction false} IdsAscend(commands: seq<Command>, now: int, n: nat)
    requires n <= |commands|
    ensures var ids := DeliverableIds(commands, now, n);
            && (forall id: nat :: id in ids <==> id < n && Deliverable(commands, now, id))
            && forall i, j :: 0 <= i < j < |ids| ==> ids[i] < ids[j]
  {
    hide Deliverable;
    forall id: nat ensures id in DeliverableIds(commands, now, n) <==> id < n && Deliverable(commands, now, id) {
      DeliverableIdsExact(commands, now, n, id);
    }
    if n > 0 {
      IdsAscend(commands, now, n - 1);
      var ids := DeliverableIds(commands, now, n - 1);
      forall i | 0 <= i < |ids| ensures ids[i] < n - 1 { assert ids[i] in ids; }
    }
  }

  /** A snapshot carries exactly the commands that are waiting and not past their time, oldest first. */
  lemma {:induction false} SnapshotIds(commands: seq<Command>, now: int)
    ensures var ids := IdsNow(commands, now);
            && (forall id: nat :: id in ids <==>
                  id < |commands| && Waits(commands[id]) && now < commands[id].expiresAt)
            && forall i, j :: 0 <= i < j < |ids| ==> ids[i] < ids[j]
  {
    hide DeliverableIds;
    var kept := ExpireStale(commands, now);
    IdsAscend(kept, now, |kept|);
    forall id: nat ensures id < |commands| ==>
      (Deliverable(kept, now, id) <==> Waits(commands[id]) && now < commands[id].expiresAt) { }
  }

  class CommandServer {
    const offlineAfter: int
    var now: int
    var device: Option<Device>
    var commands: seq<Command>

    constructor (now: int, offlineAfter: int, device: Option<Device>)
      ensures this.now == now && this.offlineAfter == offlineAfter && this.device == device && commands == []
    {
      this.now, this.offlineAfter, this.device, commands := now, offlineAfter, device, [];
    }

    predicate Known()
      reads this`device
    {
      device.Some? && device.value.active
    }

    predicate Offline()
      requires device.Some?
      reads this`device, this`now
    {
      device.value.lastSeenAt == None || now - device.value.lastSeenAt.value > offlineAfter
    }

    /** Refused for an unknown or inactive device, one not heard of lately, or one with a manual command in flight. */
    method QueueManualCommand(ttl: nat) returns (r: QueueAnswer)
      modifies this`commands
      ensures r.DeviceNotFound? <==> !Known()
      ensures r.DeviceOffline? <==> Known() && Offline()
      ensures r.AlreadyPending? <==>
                && Known() && !Offline()
                && exists id :: 0 <= id < |old(commands)| && old(commands)[id].manual
                     && (old(commands)[id].status.Pending? || old(commands)[id].status.Delivered?)
                     && now < old(commands)[id].expiresAt
      ensures r.Queued? ==> r.id == |old(commands)| && commands == old(commands) + [Command(true, Pending, now + ttl)]
      ensures !r.Queued? ==> commands == old(commands)
    {
      if !Known() { return DeviceNotFound; }
      if Offline() { return DeviceOffline; }
      if ManualInFlight(commands, now) { return AlreadyPending; }
      r := Queued(|commands|);
      commands := commands + [Command(true, Pending, now + ttl)];
    }

    /** The acknowledgement counts only for a DELIVERED command; the refusal says whether it came too late. */
    method AckCommand(id: nat, ok: bool) returns (r: AckAnswer)
      modifies this`commands
      ensures commands == Acknowledge(old(commands), id, ok)
      ensures |commands| == |old(commands)| && forall k :: 0 <= k < |commands| ==>
                commands[k] == if k == id && r.Acknowledged?
                               then old(commands)[k].(status := if ok then Success else Failed) else old(commands)[k]
      ensures r.Acknowledged? <==> id < |old(commands)| && old(commands)[id].status.Delivered?
      ensures r.CommandExpired? <==> id < |old(commands)| && old(commands)[id].status.Expired?
    {
      if id < |commands| && commands[id].status.Delivered? {
        commands := commands[id := commands[id].(status := if ok then Success else Failed)];
        return Acknowledged;
      }
      if id >= |commands| { return CommandNotFound; }
      r := if commands[id].status.Expired? then CommandExpired else CommandNotFound;
    }

    /**
     One conditional request: `revisionOf` is the hash of the content these commands go with. Only content delivers.
     */
    method BuildSnapshot(ifNoneMatch: Option<int>, revisionOf: seq<nat> -> int) returns (r: SnapshotAnswer)
      modifies this`commands
      ensures var ids := IdsNow(old(commands), now);
              var rev := revisionOf(ids);
              && r == (if ifNoneMatch == Some(rev) then NotModified(rev) else Content(rev, ids))
              && commands == MarkDelivered(ExpireStale(old(commands), now), if r.NotModified? then [] else ids)
              && (forall id: nat :: id in ids <==>
                    id < |old(commands)| && Waits(old(commands)[id]) && now < old(commands)[id].expiresAt)
              && (forall i, j :: 0 <= i < j < |ids| ==> ids[i] < ids[j])
      ensures |commands| == |old(commands)| && forall k :: 0 <= k < |commands| ==>
                commands[k] == old(commands)[k].(status :=
                  if Waits(old(commands)[k]) && old(commands)[k].expiresAt <= now then Expired
                  else if r.Content? && Waits(old(commands)[k]) then Delivered else old(commands)[k].status)
    {
      ghost var before := commands;
      SnapshotIds(before, now);
      commands := ExpireStale(commands, now);
      var ids := DeliverableIds(commands, now, |commands|);
      var rev := revisionOf(ids);
      if ifNoneMatch == Some(rev) {
        assert MarkDelivered(commands, []) == commands;
        return NotModified(rev);
      }
      commands := MarkDelivered(commands, ids);
      r := Content(rev, ids);
    }
  }

  /** The `k`-th command of a batch: how its run goes, and whether its acknowledgement call raises. */
  datatype Luck = Luck(ok: bool, aborts: bool)

  /** `n` commands of the batch, with nobody in between. */
  ghost function Drive(s: State, luck: nat -> Luck, n: nat): State {
    if n == 0 then s else Step(Drive(s, luck, n - 1), Work(luck(n - 1).ok, luck(n - 1).aborts))
  }

  /** The loop over `len` commands ends after `n` of them: all, or up to the first whose acknowledgement call raises. */
  ghost predicate StopsAt(luck: nat -> Luck, len: nat, n: nat) {
    && n <= len && (forall k: nat :: k + 1 < n ==> !luck(k).aborts)
    && (n < len ==> n > 0 && luck(n - 1).aborts)
  }

  /** How far one request gets. */
  datatype Reply = RequestLost | ResponseLost | Arrives

  class AccessService {
    const server: CommandServer
    var revision: Option<int>
    var executed: seq<nat>
    ghost var mode: Mode
    ghost var acks: set<Ack>
    ghost var log: seq<Entry>

    ghost function Value(): State
      reads this, server
    {
      State(server.now, server.commands, mode, executed, acks, log)
    }

    constructor (server: CommandServer)
      ensures this.server == server && Value() == State(server.now, server.commands, Idle, [], {}, [])
              && revision == None
    {
      this.server, executed, revision := server, [], None;
      mode, acks, log := Idle, {}, [];
    }

    /** `INSERT OR IGNORE`, then keep the newest rows only. */
    method MarkExecuted(id: nat)
      requires |executed| <= KEPT
      modifies this`executed
      ensures executed == if id in old(executed) then old(executed) else Remember(old(executed), id)
      ensures |executed| <= KEPT && id in executed
    {
      if id !in executed {
        executed := executed + [id];
        assert executed[|executed| - 1] == id;
      }
      if |executed| > KEPT {
        executed := executed[|executed| - KEPT..];
        assert id in old(executed) || executed[|executed| - 1] == id;
      }
    }

    /** One command of the batch. */
    method ExecuteCommand(id: nat, luck: Luck)
      requires mode.Working? && mode.todo != [] && mode.todo[0] == id && |executed| <= KEPT
      modifies this`executed, this`mode, this`acks, this`log
      ensures Value() == Step(old(Value()), Work(luck.ok, luck.aborts))
      ensures mode == After(old(mode).todo, luck.aborts) && |executed| <= KEPT
      ensures var again := id in old(executed);
              && acks == old(acks) + {Ack(id, again || luck.ok, again)}
              && |log| == |old(log)| + (if again then 0 else 1) && log[..|old(log)|] == old(log)
              && (!again ==> log[|old(log)|].id == id && log[|old(log)|].ok == luck.ok && id in executed)
              && (again ==> executed == old(executed))
    {
      hide Live, AnswerStep, Acknowledge, ManualInFlight;
      if id in executed {
        acks := acks + {Ack(id, true, true)};
      } else {
        log := log + [Entry(id, luck.ok, Live(Value()))];
        MarkExecuted(id);
        acks := acks + {Ack(id, luck.ok, false)};
      }
      mode := After(mode.todo, luck.aborts);
    }

    /** An acknowledgement went out: of this run, or of an earlier one. */
    static predicate Answered(id: nat, ok: bool, acks: set<Ack>) {
      Ack(id, ok, false) in acks || Ack(id, true, true) in acks
    }

    /** Earlier runs stay on record, and every new one is of a command of the batch. */
    static predicate OnlyRan(batch: seq<nat>, before: seq<Entry>, after: seq<Entry>) {
      && |before| <= |after| && after[..|before|] == before
      && forall j :: |before| <= j < |after| ==> after[j].id in batch
    }

    /** The loop over the commands of a snapshot; an exception in an acknowledgement call ends it. */
    method ExecuteCommands(commands: seq<nat>, luck: nat -> Luck) returns (done: bool)
      requires mode == (if commands == [] then Idle else Working(commands)) && |executed| <= KEPT
      modifies this`executed, this`mode, this`acks, this`log
      ensures done <==> forall k :: 0 <= k < |commands| ==> !luck(k).aborts
      ensures exists n: nat :: StopsAt(luck, |commands|, n) && Value() == Drive(old(Value()), luck, n)
                && forall k: nat :: k < n ==> Answered(commands[k], luck(k).ok, acks)
      ensures old(acks) <= acks && OnlyRan(commands, old(log), log)
      ensures mode.Idle? && |executed| <= KEPT
    {
      ghost var s0 := Value();
      var k := 0;
      hide Step;
      while k < |commands|
        invariant 0 <= k <= |commands| && |executed| <= KEPT
        invariant mode == if k == |commands| then Idle else Working(commands[k..])
        invariant Value() == Drive(s0, luck, k)
        invariant forall j :: 0 <= j < k ==> !luck(j).aborts
        invariant forall j: nat :: j < k ==> Answered(commands[j], luck(j).ok, acks)
        invariant old(acks) <= acks && OnlyRan(commands, old(log), log)
      {
        ExecuteCommand(commands[k], luck(k));
        assert Value() == Drive(s0, luck, k + 1);
        if luck(k).aborts {
          assert StopsAt(luck, |commands|, k + 1);
          return false;
        }
        assert commands[k..][1..] == commands[k + 1..];
        k := k + 1;
      }
      done := true;
      assert StopsAt(luck, |commands|, |commands|);
    }

    /**
     One poll. It succeeds exactly when the answer arrives and is a 304, or content that the cache accepts (`applies`)
     and whose acknowledgement calls all go through; the stored revision follows the content the cache accepted.
     */
    method SyncSnapshot(reply: Reply, revisionOf: seq<nat> -> int, applies: bool, luck: nat -> Luck) returns (ok: bool)
      requires mode.Idle? && |executed| <= KEPT
      modifies this, server
      ensures var s1 := Step(old(Value()), Poll);
              var ids := IdsNow(old(server.commands), server.now);
              var rev := revisionOf(ids);
              var same := old(revision) == Some(rev);
              var s2 := Step(s1, Answer(same));
              && ok == (reply.Arrives? && (same || (applies && forall k :: 0 <= k < |ids| ==> !luck(k).aborts)))
              && revision == (if reply.Arrives? && applies && !same then Some(rev) else old(revision))
              && (reply.RequestLost? ==> Value() == Step(s1, GiveUp))
              && (reply.ResponseLost? || (reply.Arrives? && !same && !applies) ==> Value() == Step(s2, GiveUp))
              && (reply.Arrives? && same ==> Value() == Step(s2, Receive))
              && (reply.Arrives? && !same && applies ==>
                    exists n: nat :: StopsAt(luck, |ids|, n) && Value() == Drive(Step(s2, Receive), luck, n))
      ensures mode.Idle? && |executed| <= KEPT
    {
      hide DeliverableIds, ExpireStale, MarkDelivered, WorkStep, Acknowledge, StopsAt, Drive, ManualInFlight;
      ghost var s1 := Step(Value(), Poll);
      mode := Waiting(None);
      assert Value() == s1;
      if reply.RequestLost? {
        mode := Idle;
        return false;
      }
      var answer := server.BuildSnapshot(revision, revisionOf);
      mode := Waiting(Some(if answer.NotModified? then [] else answer.ids));
      ghost var s2 := Step(s1, Answer(answer.NotModified?));
      assert Value() == s2;
      if reply.ResponseLost? || (answer.Content? && !applies) {
        mode := Idle;
        return false;
      }
      if answer.NotModified? {
        mode := Idle;
        return true;
      }
      revision := Some(answer.revision);
      mode := if answer.ids == [] then Idle else Working(answer.ids);
      assert Value() == Step(s2, Receive);
      ok := ExecuteCommands(answer.ids, luck);
    }
  }
}
