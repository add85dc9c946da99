/**
 The shared broker state and the atomic steps on it: each Lua script, and each
 MULTI/EXEC enqueue, is one function from state to state. `pending` is listed in
 the order in which messages will be reserved; `dead` has its newest entry first.
 */
module Broker {
  import opened Tasks
  import opened RetryDelays
  import opened Sums

  datatype BrokerState = BrokerState(
    pending: seq<TaskMessage>,
    delayed: map<TaskMessage, int>,
    running: map<string, TaskMessage>,
    dead: seq<TaskMessage>,
    status: map<string, TaskStatus>,
    results: map<string, TaskResult>,
    failures: map<string, string>)

  const EMPTY := BrokerState([], map[], map[], [], map[], map[], map[])

  // ---------------------------------------------------------------- messages

  /** A task enqueued without an id is given a generated one. */
  function WithId(m: TaskMessage, generated: string): TaskMessage {
    if m.id == "" then m.(id := generated) else m
  }

  /** A message enqueued at clock reading t waits in the delayed set. */
  predicate EnqueuesDelayed(m: TaskMessage, t: int) {
    m.runAtMs.Some? && m.runAtMs.value > t
  }

  function EnqueuedCopy(m: TaskMessage, t: int): TaskMessage {
    if EnqueuesDelayed(m, t) then m.(status := Pending) else m.(status := Pending, runAtMs := None)
  }

  function ReservedCopy(m: TaskMessage, t: int): TaskMessage {
    m.(status := Running, reservedAtMs := Some(t))
  }

  function PromotedCopy(m: TaskMessage): TaskMessage {
    m.(status := Pending, runAtMs := None)
  }

  function ReclaimedCopy(m: TaskMessage): TaskMessage {
    m.(status := Pending, reservedAtMs := None)
  }

  function RetriedCopy(m: TaskMessage, reason: string, t: int): TaskMessage {
    m.(retryCount := m.retryCount + 1,
       lastError := reason,
       status := Retrying,
       reservedAtMs := None,
       runAtMs := Some(t + ComputeRetryDelayMs(m.policy, m.retryCount + 1)))
  }

  function DeadCopy(m: TaskMessage, reason: string): TaskMessage {
    m.(status := Dead, lastError := reason)
  }

  function RevivedCopy(m: TaskMessage): TaskMessage {
    m.(status := Pending, retryCount := 0, lastError := "", runAtMs := None, reservedAtMs := None)
  }

  // ------------------------------------------------------------------- steps

  function Enqueue(b: BrokerState, m: TaskMessage, t: int): BrokerState {
    var copy := EnqueuedCopy(m, t);
    if EnqueuesDelayed(m, t) then
      b.(delayed := b.delayed[copy := m.runAtMs.value], status := b.status[m.id := Pending])
    else
      b.(pending := b.pending + [copy], status := b.status[m.id := Pending])
  }

  /** ZRANGEBYSCORE with LIMIT 0 1 returns a due member of least score. */
  predicate NextDue(b: BrokerState, m: TaskMessage, t: int) {
    && m in b.delayed
    && b.delayed[m] <= t
    && forall x :: x in b.delayed ==> b.delayed[m] <= b.delayed[x]
  }

  function Promote(b: BrokerState, m: TaskMessage): BrokerState {
    b.(delayed := b.delayed - {m},
       pending := b.pending + [PromotedCopy(m)],
       status := b.status[m.id := Pending])
  }

  function Reserve(b: BrokerState, t: int): BrokerState {
    if b.pending == [] then b
    else
      var copy := ReservedCopy(b.pending[0], t);
      b.(pending := b.pending[1..],
         running := b.running[copy.id := copy],
         status := b.status[copy.id := Running])
  }

  predicate Stale(m: TaskMessage, t: int, timeout: int) {
    m.reservedAtMs.Some? && t - m.reservedAtMs.value > timeout
  }

  predicate Reclaims(b: BrokerState, id: string, t: int, timeout: int) {
    id in b.running && Stale(b.running[id], t, timeout)
  }

  function Reclaim(b: BrokerState, id: string, t: int, timeout: int): BrokerState {
    if !Reclaims(b, id, t, timeout) then b
    else b.(running := b.running - {id},
            pending := b.pending + [ReclaimedCopy(b.running[id])],
            status := b.status[id := Pending])
  }

  function Retry(b: BrokerState, task: TaskMessage, reason: string, t: int): BrokerState {
    var copy := RetriedCopy(task, reason, t);
    b.(running := b.running - {task.id},
       delayed := b.delayed[copy := copy.runAtMs.value],
       status := b.status[task.id := Retrying],
       failures := b.failures[task.id := reason])
  }

  function Fail(b: BrokerState, id: string, reason: string): BrokerState {
    b.(running := b.running - {id},
       dead := if id in b.running then [DeadCopy(b.running[id], reason)] + b.dead else b.dead,
       status := b.status[id := TaskStatus.Dead],
       failures := b.failures[id := reason])
  }

  function Ack(b: BrokerState, id: string): BrokerState {
    b.(running := b.running - {id},
       status := b.status[id := Succeeded],
       results := b.results[id := SUCCESS],
       failures := b.failures - {id})
  }

  /** The position of the first entry with the given id, or the length. */
  function FirstWithId(s: seq<TaskMessage>, id: string): (k: nat)
    ensures k <= |s|
    ensures k < |s| ==> s[k].id == id
    ensures forall i :: 0 <= i < k ==> s[i].id != id
  {
    if s == [] || s[0].id == id then 0 else 1 + FirstWithId(s[1..], id)
  }

  predicate Revives(b: BrokerState, id: string) {
    FirstWithId(b.dead, id) < |b.dead|
  }

  function Revive(b: BrokerState, id: string): BrokerState {
    var k := FirstWithId(b.dead, id);
    if k == |b.dead| then b
    else b.(dead := Without(b.dead, k),
            pending := b.pending + [RevivedCopy(b.dead[k])],
            status := b.status[id := Pending],
            failures := b.failures - {id})
  }

  // ---------------------------------------------------------------- counting

  ghost function IdWeight(id: string): TaskMessage -> int {
    (m: TaskMessage) => if m.id == id then 1 else 0
  }

  ghost function Count(s: seq<TaskMessage>, id: string): int {
    Sum(s, IdWeight(id))
  }

  ghost function CountSet(s: set<TaskMessage>, id: string): int {
    SumSet(s, IdWeight(id))
  }

  /** How many copies of a task the four containers hold together. */
  ghost function Copies(b: BrokerState, id: string): int {
    Count(b.pending, id) + CountSet(b.delayed.Keys, id) + (if id in b.running then 1 else 0) + Count(b.dead, id)
  }

  lemma {:induction false} CountMembers(s: seq<TaskMessage>, id: string)
    ensures Count(s, id) >= 0
    ensures Count(s, id) == 0 <==> forall m :: m in s ==> m.id != id
  {
    if s == [] {
    } else {
      CountMembers(s[1..], id);
      assert s == [s[0]] + s[1..];
    }
  }

  lemma {:induction false} CountSetMembers(s: set<TaskMessage>, id: string)
    ensures CountSet(s, id) >= 0
    ensures CountSet(s, id) == 0 <==> forall m :: m in s ==> m.id != id
    decreases s
  {
    if s == {} {
    } else {
      var x :| x in s;
      SumSetRemove(s, x, IdWeight(id));
      CountSetMembers(s - {x}, id);
      assert s == {x} + (s - {x});
    }
  }

  /** The task has a copy in one of the four containers. */
  ghost predicate Located(b: BrokerState, id: string) {
    || (exists m :: m in b.pending && m.id == id)
    || (exists m :: m in b.delayed && m.id == id)
    || id in b.running
    || (exists m :: m in b.dead && m.id == id)
  }

  lemma CopiesLocated(b: BrokerState, id: string)
    ensures Copies(b, id) >= 0
    ensures Copies(b, id) >= 1 <==> Located(b, id)
  {
    CountMembers(b.pending, id);
    CountSetMembers(b.delayed.Keys, id);
    CountMembers(b.dead, id);
  }

  lemma InsertKey<V>(d: map<TaskMessage, V>, m: TaskMessage, v: V, w: TaskMessage -> int)
    ensures SumSet(d[m := v].Keys, w) == if m in d then SumSet(d.Keys, w) else SumSet(d.Keys, w) + w(m)
  {
    SumSetInsert(d.Keys, m, w);
    assert d[m := v].Keys == d.Keys + {m};
  }

  lemma RemoveKey<V>(d: map<TaskMessage, V>, m: TaskMessage, w: TaskMessage -> int)
    requires m in d
    ensures SumSet((d - {m}).Keys, w) == SumSet(d.Keys, w) - w(m)
  {
    SumSetRemove(d.Keys, m, w);
    assert (d - {m}).Keys == d.Keys - {m};
  }
}
