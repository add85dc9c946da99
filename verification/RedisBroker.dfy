/**
 The broker client: the store's keys as mutable state, the scripts as updates in
 place, and the two maintenance loops.
 */
module RedisBroker {
  import opened Tasks
  import opened TaskJson
  import opened RetryDelays
  import opened Sums
  import opened Broker
  import opened Protocol
  import opened RedisStore
  import opened StoreRefinement
  import opened Passes

  /** LREM with count 1: drop the first element equal to the value. */
  function ListRemove(list: seq<Json>, value: Json): seq<Json> {
    if list == [] then []
    else if list[0] == value then list[1..]
    else [list[0]] + ListRemove(list[1..], value)
  }

  lemma {:induction false} ListRemoveAt(list: seq<Json>, k: nat)
    requires k < |list| && forall i :: 0 <= i < k ==> list[i] != list[k]
    ensures ListRemove(list, list[k]) == Without(list, k)
  {
    if k == 0 {
    } else {
      ListRemoveAt(list[1..], k - 1);
      assert Without(list, k) == [list[0]] + Without(list[1..], k - 1);
    }
  }

  /** The running hash without its stale entries, except those not visited yet. */
  function Unexpired(running: map<string, Json>, unvisited: set<string>, t: int, timeout: int): map<string, Json> {
    map id | id in running && (id in unvisited || !StaleEntry(running[id], t, timeout)) :: running[id]
  }

  lemma UnexpiredAll(running: map<string, Json>, t: int, timeout: int)
    ensures Unexpired(running, running.Keys, t, timeout) == running
  {
  }

  lemma ShrinksDelayed(d: map<Json, int>, j: Json)
    requires j in d
    ensures |d - {j}| < |d|
  {
    assert (d - {j}).Keys == d.Keys - {j};
  }

  /** The pass grows by the message the script picked. */
  lemma PromoteGhost(st: Store, b: BrokerState, j: Json, t: int, ms: seq<TaskMessage>) returns (ms': seq<TaskMessage>)
    requires PromotePass(b, t, ms) && Represents(st, PromoteAll(b, ms)) && NextDueMember(st, j, t)
    ensures PromotePass(b, t, ms') && Represents(PromoteScript(st, j).0, PromoteAll(b, ms'))
    ensures PromoteScript(st, j).1 == 1
  {
    hide Represents, RepresentsDelayed;
    var m := PickedMemberIsDue(st, PromoteAll(b, ms), j, t);
    PromoteRefines(st, PromoteAll(b, ms), m, t);
    PassAppend(b, t, ms, m);
    ms' := ms + [m];
  }

  lemma NothingDueRefined(st: Store, b: BrokerState, t: int)
    requires Represents(st, b) && forall j :: j in st.delayed ==> st.delayed[j] > t
    ensures NothingDue(b, t)
  {
  }

  /** The running hash after the script for one more id. */
  lemma UnexpiredNext(st: Store, was: map<string, Json>, unvisited: set<string>, id: string, t: int, timeout: int)
    requires st.running == Unexpired(was, unvisited, t, timeout) && id in was && id in unvisited
    ensures ReclaimScript(st, id, t, timeout).0.running == Unexpired(was, unvisited - {id}, t, timeout)
  {
    hide StaleEntry, ReclaimEdit;
    assert id in st.running && st.running[id] == was[id];
    assert Unexpired(was, unvisited - {id}, t, timeout)
        == if StaleEntry(was[id], t, timeout) then st.running - {id} else st.running;
  }

  /** If the store represented a broker, it represents that broker after the same scripts, and they were counted. */
  ghost predicate ReclaimsFaithfully(
      was: Store, st: Store, b: BrokerState, ids: seq<string>, count: int, t: int, timeout: int) {
    Represents(was, b) ==> Represents(st, ReclaimAll(b, ids, t, timeout)) && count == ReclaimCount(b, ids, t, timeout)
  }

  lemma ReclaimsFaithfullyStart(st: Store, b: BrokerState, t: int, timeout: int)
    ensures ReclaimsFaithfully(st, st, b, [], 0, t, timeout)
  {
    hide Represents;
  }

  lemma ReclaimsFaithfullyNext(
      was: Store, st: Store, b: BrokerState, ids: seq<string>, id: string, count: int, t: int, timeout: int)
    requires ReclaimsFaithfully(was, st, b, ids, count, t, timeout)
    ensures var (st', moved) := ReclaimScript(st, id, t, timeout);
            ReclaimsFaithfully(was, st', b, ids + [id], count + moved, t, timeout)
  {
    hide Represents, ReclaimScript, ReclaimAll, ReclaimCount, Reclaim, Reclaims;
    if Represents(was, b) {
      ReclaimRefines(st, ReclaimAll(b, ids, t, timeout), id, t, timeout);
      ReclaimAppend(b, ids, id, t, timeout);
    }
  }

  class Client {
    var pending: seq<Json>
    var delayed: map<Json, int>
    var running: map<string, Json>
    var dead: seq<Json>
    var status: map<string, string>
    var results: map<string, Json>
    var failures: map<string, string>

    constructor ()
      ensures Contents() == EMPTY_STORE
    {
      pending, delayed, running, dead := [], map[], map[], [];
      status, results, failures := map[], map[], map[];
    }

    function Contents(): Store
      reads this
    {
      Store(pending, delayed, running, dead, status, results, failures)
    }

    /** `generated` is the id that TaskId::Generate would give. */
    method Enqueue(task: TaskMessage, generated: string, now: int) returns (id: string)
      modifies this
      ensures Contents() == EnqueueTransaction(old(Contents()), WithId(task, generated), now)
      ensures id == if task.id == "" then generated else task.id
      ensures task.runAtMs.Some? && task.runAtMs.value > now ==>
                && pending == old(pending)
                && delayed == old(delayed)[ToJson(task.(id := id, status := Pending)) := task.runAtMs.value]
      ensures task.runAtMs.None? || task.runAtMs.value <= now ==>
                && delayed == old(delayed)
                && pending == [ToJson(task.(id := id, status := Pending, runAtMs := None))] + old(pending)
    {
      var message := task;
      if message.id == "" {
        message := message.(id := generated);
      }
      message := message.(status := Pending);
      if message.runAtMs.Some? && message.runAtMs.value > now {
        delayed := delayed[ToJson(message) := message.runAtMs.value];
      } else {
        message := message.(runAtMs := None);
        pending := [ToJson(message)] + pending;
      }
      status := status[message.id := "pending"];
      return message.id;
    }

    method PromoteOne(now: int) returns (moved: int, ghost member: Option<Json>)
      modifies this
      ensures member.None? ==> moved == 0 && Contents() == old(Contents())
      ensures member.None? ==> forall j :: j in delayed ==> delayed[j] > now
      ensures member.Some? ==> NextDueMember(old(Contents()), member.value, now)
      ensures member.Some? ==> (Contents(), moved) == PromoteScript(old(Contents()), member.value)
    {
      var due := FirstDue(delayed, now);
      member := due;
      if due.None? {
        return 0, member;
      }
      var j := due.value;
      delayed := delayed - {j};
      if !HasStringId(j) {
        return 0, member;
      }
      pending := [Obj(PromoteEdit(j.fields))] + pending;
      status := status[Id(j) := "pending"];
      return 1, member;
    }

    /**
     Promote until the script reports nothing moved. On a store that represents a
     broker this is a complete promotion pass; it always terminates.
     */
    method PromoteDueTasks(now: int, ghost b: BrokerState) returns (ghost ms: seq<TaskMessage>)
      modifies this
      ensures running == old(running) && dead == old(dead) && results == old(results) && failures == old(failures)
      ensures Represents(old(Contents()), b) ==>
                && PromotePass(b, now, ms) && NothingDue(PromoteAll(b, ms), now)
                && Represents(Contents(), PromoteAll(b, ms))
    {
      hide Represents, NextDueMember;
      ms := [];
      ghost var faithful := Represents(Contents(), b);
      var moved := 1;
      while moved > 0
        invariant 0 <= moved <= 1
        invariant running == old(running) && dead == old(dead) && results == old(results) && failures == old(failures)
        invariant faithful ==> PromotePass(b, now, ms) && Represents(Contents(), PromoteAll(b, ms))
        invariant faithful && moved == 0 ==> NothingDue(PromoteAll(b, ms), now)
        decreases |delayed| + moved
      {
        label before:
        ghost var current := PromoteAll(b, ms);
        ghost var member;
        moved, member := PromoteOne(now);
        if member.Some? {
          ShrinksDelayed(old@before(delayed), member.value);
        }
        if faithful {
          if member.Some? {
            ms := PromoteGhost(old@before(Contents()), b, member.value, now, ms);
          } else {
            NothingDueRefined(Contents(), current, now);
          }
        }
      }
    }

    method Reserve(now: int) returns (task: Option<TaskMessage>)
      modifies this
      ensures Contents() == ReserveScript(old(Contents()), now).0
      ensures var reply := ReserveScript(old(Contents()), now).1;
              task == if reply.Some? && FromJson(reply.value).Ok? then Some(FromJson(reply.value).value) else None
    {
      if pending == [] {
        return None;
      }
      var j := pending[|pending| - 1];
      pending := pending[..|pending| - 1];
      if !HasStringId(j) {
        return None;
      }
      var reply := Obj(ReserveEdit(j.fields, now));
      running := running[Id(j) := reply];
      status := status[Id(j) := "running"];
      var parsed := FromJson(reply);
      task := if parsed.Ok? then Some(parsed.value) else None;
    }

    method ReclaimOne(id: string, now: int, timeout: int) returns (moved: int)
      modifies this
      ensures (Contents(), moved) == ReclaimScript(old(Contents()), id, now, timeout)
      ensures delayed == old(delayed) && dead == old(dead) && results == old(results) && failures == old(failures)
    {
      if id !in running || !StaleEntry(running[id], now, timeout) {
        return 0;
      }
      var f := running[id].fields;
      running := running - {id};
      pending := [Obj(ReclaimEdit(f))] + pending;
      status := status[id := "pending"];
      return 1;
    }

    /** One script per id of a snapshot of the running hash, in any order. */
    method ReclaimStaleTasks(now: int, timeout: int, ghost b: BrokerState)
      returns (reclaimed: int, ghost ids: seq<string>)
      modifies this
      ensures delayed == old(delayed) && dead == old(dead) && results == old(results) && failures == old(failures)
      ensures running == Unexpired(old(running), {}, now, timeout)
      ensures Distinct(ids) && forall id :: id in ids <==> id in old(running)
      ensures Represents(old(Contents()), b) ==>
                && Represents(Contents(), ReclaimAll(b, ids, now, timeout))
                && reclaimed == ReclaimCount(b, ids, now, timeout)
    {
      hide Represents, ReclaimScript, ReclaimAll, ReclaimCount, Unexpired;
      reclaimed, ids := 0, [];
      ReclaimsFaithfullyStart(Contents(), b, now, timeout);
      ghost var was := Contents();
      var rest := running.Keys;
      UnexpiredAll(running, now, timeout);
      while rest != {}
        invariant delayed == old(delayed) && dead == old(dead) && results == old(results) && failures == old(failures)
        invariant rest <= was.running.Keys && Distinct(ids)
        invariant forall id :: id in ids <==> id in was.running && id !in rest
        invariant running == Unexpired(was.running, rest, now, timeout)
        invariant ReclaimsFaithfully(was, Contents(), b, ids, reclaimed, now, timeout)
        decreases rest
      {
        var id :| id in rest;
        UnexpiredNext(Contents(), was.running, rest, id, now, timeout);
        ReclaimsFaithfullyNext(was, Contents(), b, ids, id, reclaimed, now, timeout);
        var moved := ReclaimOne(id, now, timeout);
        rest := rest - {id};
        ids := ids + [id];
        reclaimed := reclaimed + moved;
      }
    }

    method Ack(id: string)
      modifies this
      ensures Contents() == AckScript(old(Contents()), id, SUCCESS_JSON)
    {
      running := running - {id};
      status := status[id := "succeeded"];
      results := results[id := ResultToJson(SUCCESS)];
      failures := failures - {id};
    }

    method Retry(task: TaskMessage, reason: string, now: int)
      modifies this
      ensures var r := RetriedCopy(task, reason, now);
              Contents() == RetryScript(old(Contents()), task.id, ToJson(r), r.runAtMs.value, reason)
    {
      var retryTask := RetriedCopy(task, reason, now);
      running := running - {task.id};
      delayed := delayed[ToJson(retryTask) := retryTask.runAtMs.value];
      status := status[task.id := "retrying"];
      failures := failures[task.id := reason];
    }

    method Fail(id: string, reason: string)
      modifies this
      ensures Contents() == FailScript(old(Contents()), id, reason)
    {
      if id in running && running[id].Obj? {
        dead := [Obj(FailEdit(running[id].fields, reason))] + dead;
      }
      running := running - {id};
      failures := failures[id := reason];
      status := status[id := "dead"];
    }

    /** Scan the dead-letter list from its head; removing by value takes out the entry found. */
    method RetryDeadTask(id: string) returns (found: bool)
      modifies this
      ensures Contents() == ReviveScript(old(Contents()), id).0
      ensures found <==> ReviveScript(old(Contents()), id).1 == 1
    {
      ghost var k := FirstEntry(dead, id);
      var items := dead;
      for i := 0 to |items|
        invariant Contents() == old(Contents())
        invariant i <= k
      {
        var j := items[i];
        if HasStringId(j) && Id(j) == id {
          ListRemoveAt(items, i);
          dead := ListRemove(dead, j);
          pending := [Obj(ReviveEdit(j.fields))] + pending;
          status := status[id := "pending"];
          failures := failures - {id};
          return true;
        }
      }
      return false;
    }
  }

  /** A scheduler tick: promote, then reclaim, with one captured time. */
  method RunSchedulerTick(client: Client, now: int, timeout: int, ghost b: BrokerState)
    returns (ghost ms: seq<TaskMessage>, ghost ids: seq<string>)
    modifies client
    ensures forall id :: id in client.running ==> !StaleEntry(client.running[id], now, timeout)
    ensures Distinct(ids) && forall id :: id in ids <==> id in old(client.running)
    ensures Represents(old(client.Contents()), b) ==>
              && PromotePass(b, now, ms) && NothingDue(PromoteAll(b, ms), now)
              && Represents(client.Contents(), ReclaimAll(PromoteAll(b, ms), ids, now, timeout))
  {
    hide Represents, PromotePass, PromoteAll, ReclaimAll;
    ms := client.PromoteDueTasks(now, b);
    var reclaimed;
    reclaimed, ids := client.ReclaimStaleTasks(now, timeout, PromoteAll(b, ms));
  }

  /** The run time and count of a retry fit their C++ types. */
  predicate RetryFits(task: TaskMessage, d: Decision, t: int) {
    d.DoRetry? ==> Representable(RetriedCopy(task, d.reason, t))
  }

  /** A worker reports the outcome of its own copy, without asking whether it still holds the lease. */
  method ProcessTask(client: Client, task: TaskMessage, outcome: Outcome, now: int, ghost b: BrokerState)
    modifies client
    ensures outcome.Success? ==> client.Contents() == AckScript(old(client.Contents()), task.id, SUCCESS_JSON)
    ensures outcome.NoHandler? ==>
              client.Contents() == FailScript(old(client.Contents()), task.id, "unknown task: " + task.name)
    ensures outcome.Failure? && task.retryCount >= task.policy.maxRetries ==>
              client.Contents() == FailScript(old(client.Contents()), task.id, outcome.error)
    ensures outcome.Failure? && task.retryCount < task.policy.maxRetries ==>
              var due := now + ComputeRetryDelayMs(task.policy, task.retryCount + 1);
              var retry := task.(retryCount := task.retryCount + 1, lastError := outcome.error, status := Retrying,
                                 reservedAtMs := None, runAtMs := Some(due));
              client.Contents() == RetryScript(old(client.Contents()), task.id, ToJson(retry), due, outcome.error)
    ensures Represents(old(client.Contents()), b) && RetryFits(task, Decide(task, outcome), now) ==>
              Represents(client.Contents(), CompleteBroker(b, task, Decide(task, outcome), now))
  {
    hide Represents;
    ghost var st := client.Contents();
    if outcome.NoHandler? {
      client.Fail(task.id, "unknown task: " + task.name);
    } else if outcome.Success? {
      client.Ack(task.id);
    } else if ShouldRetry(task) {
      client.Retry(task, outcome.error, now);
    } else {
      client.Fail(task.id, outcome.error);
    }
    if Represents(st, b) && RetryFits(task, Decide(task, outcome), now) {
      match Decide(task, outcome) {
        case DoAck => AckRefines(st, b, task.id);
        case DoRetry(reason) => RetryRefines(st, b, task, reason, now);
        case DoFail(reason) => FailRefines(st, b, task.id, reason);
      }
    }
  }
}
