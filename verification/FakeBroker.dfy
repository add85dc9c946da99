/**
 The in-memory broker that the tests use in place of Redis: a deque, a vector of
 delayed entries sorted by run time, and hash maps. Its operations as functions of
 the state, and the class that performs them in place.
 */
module FakeBroker {
  import opened Tasks
  import opened RetryDelays
  import opened Broker
  import opened Passes

  datatype DelayedEntry = DelayedEntry(runAtMs: int, task: TaskMessage)

  datatype FakeState = FakeState(
    pending: seq<TaskMessage>,
    delayed: seq<DelayedEntry>,
    running: map<string, TaskMessage>,
    dead: map<string, TaskMessage>,
    statuses: map<string, TaskStatus>,
    failures: map<string, string>,
    results: map<string, TaskResult>)

  const EMPTY_FAKE := FakeState([], [], map[], map[], map[], map[], map[])

  predicate Sorted(delayed: seq<DelayedEntry>) {
    forall i, j :: 0 <= i < j < |delayed| ==> delayed[i].runAtMs <= delayed[j].runAtMs
  }

  /** Insertion before the first entry that is not earlier. */
  function Insert(delayed: seq<DelayedEntry>, entry: DelayedEntry): seq<DelayedEntry> {
    if delayed == [] || delayed[0].runAtMs >= entry.runAtMs then [entry] + delayed
    else [delayed[0]] + Insert(delayed[1..], entry)
  }

  lemma {:induction false} InsertAt(delayed: seq<DelayedEntry>, entry: DelayedEntry, k: nat)
    requires k <= |delayed|
    requires forall i :: 0 <= i < k ==> delayed[i].runAtMs < entry.runAtMs
    requires k < |delayed| ==> delayed[k].runAtMs >= entry.runAtMs
    ensures Insert(delayed, entry) == delayed[..k] + [entry] + delayed[k..]
  {
    if k == 0 {
    } else {
      InsertAt(delayed[1..], entry, k - 1);
      assert delayed[..k] == [delayed[0]] + delayed[1..][..k - 1];
    }
  }

  lemma {:induction false} InsertContents(delayed: seq<DelayedEntry>, entry: DelayedEntry)
    ensures multiset(Insert(delayed, entry)) == multiset(delayed) + multiset{entry}
  {
    if delayed == [] || delayed[0].runAtMs >= entry.runAtMs {
    } else {
      InsertContents(delayed[1..], entry);
      assert delayed == [delayed[0]] + delayed[1..];
    }
  }

  lemma {:induction false} InsertSorted(delayed: seq<DelayedEntry>, entry: DelayedEntry)
    requires Sorted(delayed)
    ensures Sorted(Insert(delayed, entry))
  {
    if delayed == [] || delayed[0].runAtMs >= entry.runAtMs {
    } else {
      var rest := Insert(delayed[1..], entry);
      InsertSorted(delayed[1..], entry);
      InsertContents(delayed[1..], entry);
      forall x | x in rest
        ensures delayed[0].runAtMs <= x.runAtMs
      {
        assert x in multiset(rest);
      }
    }
  }

  function AddDelayed(f: FakeState, task: TaskMessage, runAtMs: int): FakeState {
    f.(delayed := Insert(f.delayed, DelayedEntry(runAtMs, task.(runAtMs := Some(runAtMs)))))
  }

  function FakeEnqueue(f: FakeState, m: TaskMessage, t: int): FakeState {
    if EnqueuesDelayed(m, t) then
      AddDelayed(f, m.(status := Pending), m.runAtMs.value).(statuses := f.statuses[m.id := Pending])
    else
      f.(pending := f.pending + [m.(status := Pending, runAtMs := None)], statuses := f.statuses[m.id := Pending])
  }

  /** Entries are taken from the front until one is not due. */
  function FakePromote(f: FakeState, t: int): FakeState
    decreases |f.delayed|
  {
    if f.delayed == [] || f.delayed[0].runAtMs > t then f
    else FakePromote(f.(pending := f.pending + [PromotedCopy(f.delayed[0].task)], delayed := f.delayed[1..]), t)
  }

  /** The due entries' copies, and the entries not due, by a scan of the whole vector. */
  function DueCopies(delayed: seq<DelayedEntry>, t: int): seq<TaskMessage> {
    if delayed == [] then []
    else (if delayed[0].runAtMs <= t then [PromotedCopy(delayed[0].task)] else []) + DueCopies(delayed[1..], t)
  }

  function NotDue(delayed: seq<DelayedEntry>, t: int): seq<DelayedEntry> {
    if delayed == [] then []
    else (if delayed[0].runAtMs <= t then [] else [delayed[0]]) + NotDue(delayed[1..], t)
  }

  lemma {:induction false} NoneDue(delayed: seq<DelayedEntry>, t: int)
    requires forall i :: 0 <= i < |delayed| ==> delayed[i].runAtMs > t
    ensures DueCopies(delayed, t) == [] && NotDue(delayed, t) == delayed
  {
    if delayed == [] {
    } else {
      NoneDue(delayed[1..], t);
    }
  }

  /** The early exit is safe on a sorted vector: it moves what a full scan would move. */
  lemma {:induction false} FakePromoteIsExact(f: FakeState, t: int)
    requires Sorted(f.delayed)
    ensures FakePromote(f, t) == f.(pending := f.pending + DueCopies(f.delayed, t), delayed := NotDue(f.delayed, t))
    decreases |f.delayed|
  {
    if f.delayed == [] || f.delayed[0].runAtMs > t {
      NoneDue(f.delayed, t);
    } else {
      hide PromotedCopy;
      var copy, rest := PromotedCopy(f.delayed[0].task), f.delayed[1..];
      FakePromoteIsExact(f.(pending := f.pending + [copy], delayed := rest), t);
      assert f.pending + [copy] + DueCopies(rest, t) == f.pending + ([copy] + DueCopies(rest, t));
    }
  }

  function FakeReserve(f: FakeState, t: int): FakeState {
    if f.pending == [] then f
    else
      var m := ReservedCopy(f.pending[0], t);
      f.(pending := f.pending[1..], running := f.running[m.id := m], statuses := f.statuses[m.id := Running])
  }

  function FakeReclaimOne(f: FakeState, id: string, t: int, timeout: int): FakeState {
    if id !in f.running || !Stale(f.running[id], t, timeout) then f
    else f.(pending := f.pending + [ReclaimedCopy(f.running[id])],
            statuses := f.statuses[f.running[id].id := Pending],
            running := f.running - {id})
  }

  /** The hash map is walked in some order of its keys. */
  function FakeReclaim(f: FakeState, ids: seq<string>, t: int, timeout: int): FakeState
    decreases ids
  {
    if ids == [] then f else FakeReclaim(FakeReclaimOne(f, ids[0], t, timeout), ids[1..], t, timeout)
  }

  lemma {:induction false} FakeReclaimAppend(f: FakeState, ids: seq<string>, id: string, t: int, timeout: int)
    ensures FakeReclaim(f, ids + [id], t, timeout) == FakeReclaimOne(FakeReclaim(f, ids, t, timeout), id, t, timeout)
    decreases ids
  {
    if ids == [] {
      assert [id][1..] == [] && ids + [id] == [id];
    } else {
      assert (ids + [id])[0] == ids[0] && (ids + [id])[1..] == ids[1..] + [id];
      FakeReclaimAppend(FakeReclaimOne(f, ids[0], t, timeout), ids[1..], id, t, timeout);
    }
  }

  function FakeAck(f: FakeState, id: string): FakeState {
    f.(running := f.running - {id},
       statuses := f.statuses[id := Succeeded],
       failures := f.failures - {id},
       results := f.results[id := SUCCESS])
  }

  function FakeRetry(f: FakeState, task: TaskMessage, reason: string, t: int): FakeState {
    var retryTask :=
      task.(retryCount := task.retryCount + 1, lastError := reason, status := Retrying, reservedAtMs := None);
    var runAtMs := t + ComputeRetryDelayMs(task.policy, retryTask.retryCount);
    AddDelayed(f.(running := f.running - {task.id}), retryTask, runAtMs)
      .(statuses := f.statuses[task.id := Retrying], failures := f.failures[task.id := reason])
  }

  const DEFAULT_POLICY := RetryPolicy(3, 1000, 2.0)

  /** A message with nothing but an id. */
  function Blank(id: string): TaskMessage {
    TaskMessage(id, "", Obj(map[]), Pending, 0, DEFAULT_POLICY, 0, None, None, "")
  }

  /** Unlike the script, it records a dead entry even for a task that is not running. */
  function FakeFail(f: FakeState, id: string, reason: string): FakeState {
    var m := if id in f.running then f.running[id] else Blank(id);
    f.(running := f.running - {id},
       dead := f.dead[id := DeadCopy(m, reason)],
       statuses := f.statuses[id := Dead],
       failures := f.failures[id := reason])
  }

  /** What it writes then: a message with nothing but the id and the reason. */
  lemma FailOfMissingTask(f: FakeState, id: string, reason: string)
    requires id !in f.running
    ensures var m := FakeFail(f, id, reason).dead[id];
            && m.id == id && m.name == "" && m.payload == Obj(map[]) && m.policy == RetryPolicy(3, 1000, 2.0)
            && m.retryCount == 0 && m.createdAtMs == 0 && m.status == Dead && m.lastError == reason
  {
  }

  function FakeRevive(f: FakeState, id: string): FakeState {
    if id !in f.dead then f
    else f.(dead := f.dead - {id},
            pending := f.pending + [RevivedCopy(f.dead[id])],
            statuses := f.statuses[id := Pending],
            failures := f.failures - {id})
  }

  class Fake {
    var pending: seq<TaskMessage>
    var delayed: seq<DelayedEntry>
    var running: map<string, TaskMessage>
    var dead: map<string, TaskMessage>
    var statuses: map<string, TaskStatus>
    var failureReasons: map<string, string>
    var results: map<string, TaskResult>

    ghost predicate Valid()
      reads this
    {
      Sorted(delayed)
    }

    function View(): FakeState
      reads this
    {
      FakeState(pending, delayed, running, dead, statuses, failureReasons, results)
    }

    constructor ()
      ensures Valid() && View() == EMPTY_FAKE
    {
      pending, delayed, running, dead := [], [], map[], map[];
      statuses, failureReasons, results := map[], map[], map[];
    }

    /** Binary search for the first entry that is not earlier than the given time. */
    method LowerBound(runAtMs: int) returns (k: nat)
      requires Valid()
      ensures k <= |delayed|
      ensures forall i :: 0 <= i < k ==> delayed[i].runAtMs < runAtMs
      ensures forall i :: k <= i < |delayed| ==> delayed[i].runAtMs >= runAtMs
    {
      k := 0;
      var hi := |delayed|;
      while k < hi
        invariant k <= hi <= |delayed|
        invariant forall i :: 0 <= i < k ==> delayed[i].runAtMs < runAtMs
        invariant forall i :: hi <= i < |delayed| ==> delayed[i].runAtMs >= runAtMs
      {
        var mid := (k + hi) / 2;
        if delayed[mid].runAtMs < runAtMs {
          k := mid + 1;
        } else {
          hi := mid;
        }
      }
    }

    method AddDelayedTask(task: TaskMessage, runAtMs: int)
      requires Valid()
      modifies this`delayed
      ensures Valid() && View() == AddDelayed(old(View()), task, runAtMs)
    {
      var entry := DelayedEntry(runAtMs, task.(runAtMs := Some(runAtMs)));
      var k := LowerBound(runAtMs);
      InsertAt(delayed, entry, k);
      InsertSorted(delayed, entry);
      delayed := delayed[..k] + [entry] + delayed[k..];
    }

    /** Unlike the Redis client, it generates no id. */
    method Enqueue(task: TaskMessage, now: int) returns (id: string)
      requires Valid()
      modifies this
      ensures Valid() && View() == FakeEnqueue(old(View()), task, now) && id == task.id
    {
      if EnqueuesDelayed(task, now) {
        AddDelayedTask(task.(status := Pending), task.runAtMs.value);
      } else {
        pending := pending + [task.(status := Pending, runAtMs := None)];
      }
      statuses := statuses[task.id := Pending];
      return task.id;
    }

    method PromoteDueTasks(now: int)
      requires Valid()
      modifies this
      ensures Valid() && View() == FakePromote(old(View()), now)
    {
      while delayed != []
        invariant Valid()
        invariant FakePromote(View(), now) == FakePromote(old(View()), now)
        decreases |delayed|
      {
        if delayed[0].runAtMs > now {
          break;
        }
        pending := pending + [PromotedCopy(delayed[0].task)];
        delayed := delayed[1..];
      }
    }

    method Reserve(now: int) returns (task: Option<TaskMessage>)
      requires Valid()
      modifies this
      ensures Valid() && View() == FakeReserve(old(View()), now)
      ensures task == if old(pending) == [] then None else Some(ReservedCopy(old(pending)[0], now))
    {
      if pending == [] {
        return None;
      }
      var message := ReservedCopy(pending[0], now);
      pending := pending[1..];
      running := running[message.id := message];
      statuses := statuses[message.id := Running];
      return Some(message);
    }

    /** Walk the running map, erasing entries while iterating. */
    method ReclaimStaleTasks(now: int, timeout: int) returns (reclaimed: nat, ghost ids: seq<string>)
      requires Valid()
      modifies this
      ensures Valid() && View() == FakeReclaim(old(View()), ids, now, timeout)
      ensures Distinct(ids) && forall id :: id in ids <==> id in old(running)
      ensures |pending| == |old(pending)| + reclaimed
    {
      reclaimed, ids := 0, [];
      var rest := running.Keys;
      while rest != {}
        invariant Valid() && rest <= old(running).Keys && rest <= running.Keys && Distinct(ids)
        invariant forall id :: id in ids <==> id in old(running) && id !in rest
        invariant View() == FakeReclaim(old(View()), ids, now, timeout)
        invariant |pending| == |old(pending)| + reclaimed
        decreases rest
      {
        var id :| id in rest;
        rest := rest - {id};
        FakeReclaimAppend(old(View()), ids, id, now, timeout);
        ids := ids + [id];
        var message := running[id];
        if !Stale(message, now, timeout) {
          continue;
        }
        pending := pending + [ReclaimedCopy(message)];
        statuses := statuses[message.id := Pending];
        running := running - {id};
        reclaimed := reclaimed + 1;
      }
    }

    method Ack(id: string)
      requires Valid()
      modifies this
      ensures Valid() && View() == FakeAck(old(View()), id)
    {
      running := running - {id};
      statuses := statuses[id := Succeeded];
      failureReasons := failureReasons - {id};
      results := results[id := SUCCESS];
    }

    method Retry(task: TaskMessage, reason: string, now: int)
      requires Valid()
      modifies this
      ensures Valid() && View() == FakeRetry(old(View()), task, reason, now)
    {
      running := running - {task.id};
      var retryTask :=
        task.(retryCount := task.retryCount + 1, lastError := reason, status := Retrying, reservedAtMs := None);
      AddDelayedTask(retryTask, now + ComputeRetryDelayMs(retryTask.policy, retryTask.retryCount));
      statuses := statuses[task.id := Retrying];
      failureReasons := failureReasons[task.id := reason];
    }

    method Fail(id: string, reason: string)
      requires Valid()
      modifies this
      ensures Valid() && View() == FakeFail(old(View()), id, reason)
    {
      var message := Blank(id);
      if id in running {
        message := running[id];
        running := running - {id};
      }
      dead := dead[id := DeadCopy(message, reason)];
      statuses := statuses[id := TaskStatus.Dead];
      failureReasons := failureReasons[id := reason];
    }

    method RetryDeadTask(id: string) returns (found: bool)
      requires Valid()
      modifies this
      ensures Valid() && View() == FakeRevive(old(View()), id)
      ensures found <==> id in old(dead)
    {
      if id !in dead {
        return false;
      }
      var message := RevivedCopy(dead[id]);
      dead := dead - {id};
      pending := pending + [message];
      statuses := statuses[id := Pending];
      failureReasons := failureReasons - {id};
      return true;
    }
  }
}
