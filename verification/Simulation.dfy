/**
 FakeBroker behaves like the Redis broker on lease-held runs: driven by the same
 operations, its containers hold the same messages, its queue in the same order.
 */
module Simulation {
  import opened Tasks
  import opened Sums
  import opened Broker
  import opened Protocol
  import opened Leases
  import opened Passes
  import opened FakeBroker

  // ---------------------------------------------------------------- relation

  ghost predicate SimDelayed(fd: seq<DelayedEntry>, bd: map<TaskMessage, int>) {
    && Sorted(fd)
    && (forall x :: multiset(fd)[x] <= 1)
    && (forall x :: x in fd <==> x.task in bd && bd[x.task] == x.runAtMs)
  }

  ghost predicate SimDead(fd: map<string, TaskMessage>, bd: seq<TaskMessage>) {
    && (forall id :: id in fd ==> fd[id].id == id && fd[id] in bd)
    && (forall m :: m in bd ==> m.id in fd && fd[m.id] == m)
  }

  ghost predicate Waits(b: BrokerState, id: string) {
    exists m :: m in b.pending && m.id == id
  }

  /**
   FakeBroker does not record a promotion, so the promoted retries that are still
   pending, and only those, read retrying there and pending in Redis.
   */
  ghost predicate SimStatus(f: FakeState, b: BrokerState, promoted: set<string>) {
    && f.statuses.Keys == b.status.Keys
    && (forall id :: id in promoted ==> id in b.status && b.status[id] == Pending && Waits(b, id))
    && (forall id :: id in b.status ==> f.statuses[id] == if id in promoted then Retrying else b.status[id])
  }

  /** The two brokers match, given the promoted retries that are still pending. */
  ghost predicate Sim(f: FakeState, b: BrokerState, promoted: set<string>) {
    && f.pending == b.pending
    && SimDelayed(f.delayed, b.delayed)
    && f.running == b.running
    && SimDead(f.dead, b.dead)
    && SimStatus(f, b, promoted)
    && f.failures == b.failures
    && f.results == b.results
  }

  /** The statuses of the two brokers differ exactly on the promoted retries. */
  lemma StatusesDifferIffPromoted(f: FakeState, b: BrokerState, promoted: set<string>, id: string)
    requires Sim(f, b, promoted) && id in b.status
    ensures id in f.statuses
    ensures f.statuses[id] != b.status[id] <==> id in promoted
  {
  }

  /** How a step changes the promoted retries: promotion of a retry adds it, and a reserve takes it out. */
  function PromotedNext(promoted: set<string>, s: System, e: Step): set<string> {
    match e
    case PromoteStep(m, _) => if m.status == Retrying then promoted + {m.id} else promoted
    case ReserveStep(_) => if s.b.pending == [] then promoted else promoted - {s.b.pending[0].id}
    case _ => promoted
  }

  function PromotedAfter(promoted: set<string>, s: System, steps: seq<Step>): set<string>
    requires Run(s, steps)
    decreases steps
  {
    if steps == [] then promoted
    else PromotedAfter(PromotedNext(promoted, s, steps[0]), Next(s, steps[0]), steps[1..])
  }

  lemma InsertMatches(fd: seq<DelayedEntry>, bd: map<TaskMessage, int>, m: TaskMessage, score: int)
    requires SimDelayed(fd, bd) && m !in bd
    ensures SimDelayed(Insert(fd, DelayedEntry(score, m)), bd[m := score])
  {
    var entry := DelayedEntry(score, m);
    InsertSorted(fd, entry);
    InsertContents(fd, entry);
    assert entry !in fd;
    forall x
      ensures x in Insert(fd, entry) <==> x in fd || x == entry
    {
      assert x in Insert(fd, entry) <==> x in multiset(Insert(fd, entry));
    }
  }

  // ------------------------------------------------------------------- steps

  /** Setting the same status in both brokers, of a task that does not wait. */
  lemma SameStatusSet(
      f: FakeState, b: BrokerState, f': FakeState, b': BrokerState,
      promoted: set<string>, id: string, status: TaskStatus)
    requires SimStatus(f, b, promoted) && !Waits(b, id)
    requires f'.statuses == f.statuses[id := status] && b'.status == b.status[id := status]
    requires forall x :: x in b.pending ==> x in b'.pending
    ensures SimStatus(f', b', promoted)
  {
    forall k | k in promoted
      ensures Waits(b', k)
    {
      var m :| m in b.pending && m.id == k;
      assert m in b'.pending;
    }
  }

  lemma SimEnqueueNew(f: FakeState, b: BrokerState, promoted: set<string>, m: TaskMessage, t: int)
    requires Sim(f, b, promoted) && EnqueuedCopy(m, t) !in b.delayed && !Waits(b, m.id)
    ensures Sim(FakeEnqueue(f, m, t), Enqueue(b, m, t), promoted)
  {
    hide Insert, SimDelayed, SimDead, SimStatus, Waits;
    var f', b' := FakeEnqueue(f, m, t), Enqueue(b, m, t);
    if EnqueuesDelayed(m, t) {
      InsertMatches(f.delayed, b.delayed, EnqueuedCopy(m, t), m.runAtMs.value);
      SameStatusSet(f, b, f', b', promoted, m.id, Pending);
    } else {
      SameStatusSet(f, b, f', b', promoted, m.id, Pending);
    }
  }

  lemma SimEnqueue(f: FakeState, s: System, promoted: set<string>, m: TaskMessage, t: int)
    requires Sim(f, s.b, promoted) && OneCopy(s) && FreshId(s, m.id)
    ensures Sim(FakeEnqueue(f, m, t), Enqueue(s.b, m, t), promoted)
  {
    hide Sim, FakeEnqueue, Enqueue, OneCopy;
    CopyFacts(s, m.id);
    SimEnqueueNew(f, s.b, promoted, m, t);
  }

  lemma SimReserveStatus(f: FakeState, s: System, promoted: set<string>, t: int)
    requires SimStatus(f, s.b, promoted) && f.pending == s.b.pending != []
    ensures SimStatus(FakeReserve(f, t), Reserve(s.b, t), promoted - {s.b.pending[0].id})
  {
    var b', k := Reserve(s.b, t), s.b.pending[0].id;
    forall id | id in promoted && id != k
      ensures Waits(b', id)
    {
      var m :| m in s.b.pending && m.id == id;
      assert m in s.b.pending[1..];
    }
  }

  lemma SimReserve(f: FakeState, s: System, promoted: set<string>, t: int)
    requires Sim(f, s.b, promoted)
    ensures Sim(FakeReserve(f, t), Reserve(s.b, t), PromotedNext(promoted, s, ReserveStep(t)))
  {
    hide SimDelayed, SimDead, SimStatus;
    if s.b.pending != [] {
      SimReserveStatus(f, s, promoted, t);
    }
  }

  lemma SimReclaimOne(f: FakeState, s: System, promoted: set<string>, id: string, t: int, timeout: int)
    requires Sim(f, s.b, promoted) && OneCopy(s)
    ensures Sim(FakeReclaimOne(f, id, t, timeout), Reclaim(s.b, id, t, timeout), promoted)
  {
    hide SimDelayed, SimDead, SimStatus, Stale;
    if Reclaims(s.b, id, t, timeout) {
      OnlyRunning(s, id);
      var f', b' := FakeReclaimOne(f, id, t, timeout), Reclaim(s.b, id, t, timeout);
      SameStatusSet(f, s.b, f', b', promoted, id, Pending);
    }
  }

  lemma SimAck(f: FakeState, s: System, promoted: set<string>, id: string)
    requires Sim(f, s.b, promoted) && OneCopy(s) && id in s.b.running
    ensures Sim(FakeAck(f, id), Ack(s.b, id), promoted)
  {
    hide SimDelayed, SimDead, SimStatus;
    OnlyRunning(s, id);
    SameStatusSet(f, s.b, FakeAck(f, id), Ack(s.b, id), promoted, id, Succeeded);
  }

  lemma SimRetryNew(f: FakeState, b: BrokerState, promoted: set<string>, copy: TaskMessage, reason: string, t: int)
    requires Sim(f, b, promoted) && RetriedCopy(copy, reason, t) !in b.delayed && !Waits(b, copy.id)
    ensures Sim(FakeRetry(f, copy, reason, t), Retry(b, copy, reason, t), promoted)
  {
    hide Insert, SimDelayed, SimDead, SimStatus, Waits;
    var r := RetriedCopy(copy, reason, t);
    InsertMatches(f.delayed, b.delayed, r, r.runAtMs.value);
    SameStatusSet(f, b, FakeRetry(f, copy, reason, t), Retry(b, copy, reason, t), promoted, copy.id, Retrying);
  }

  lemma SimRetry(f: FakeState, s: System, promoted: set<string>, copy: TaskMessage, reason: string, t: int)
    requires Sim(f, s.b, promoted) && OneCopy(s) && Holds(s.b, copy)
    ensures Sim(FakeRetry(f, copy, reason, t), Retry(s.b, copy, reason, t), promoted)
  {
    hide Sim, FakeRetry, Retry;
    OnlyRunning(s, copy.id);
    SimRetryNew(f, s.b, promoted, copy, reason, t);
  }

  lemma SimFail(f: FakeState, s: System, promoted: set<string>, copy: TaskMessage, reason: string)
    requires Sim(f, s.b, promoted) && OneCopy(s) && Holds(s.b, copy)
    ensures Sim(FakeFail(f, copy.id, reason), Broker.Fail(s.b, copy.id, reason), promoted)
  {
    hide SimDelayed, SimStatus, OneCopy;
    OnlyRunning(s, copy.id);
    var f', b' := FakeFail(f, copy.id, reason), Broker.Fail(s.b, copy.id, reason);
    SameStatusSet(f, s.b, f', b', promoted, copy.id, Dead);
  }

  lemma FoundInBoth(fd: map<string, TaskMessage>, bd: seq<TaskMessage>, id: string)
    requires SimDead(fd, bd)
    ensures id in fd <==> FirstWithId(bd, id) < |bd|
    ensures id in fd ==> fd[id] == bd[FirstWithId(bd, id)]
  {
    var k := FirstWithId(bd, id);
    if k < |bd| {
      assert bd[k] in bd;
    }
  }

  /** Taking the one entry of an id out of both dead-letter containers. */
  lemma DropDead(fd: map<string, TaskMessage>, bd: seq<TaskMessage>, k: nat)
    requires SimDead(fd, bd) && k < |bd| && forall x :: x in Without(bd, k) ==> x.id != bd[k].id
    ensures SimDead(fd - {bd[k].id}, Without(bd, k))
  {
    forall x | x in bd && x.id != bd[k].id
      ensures x in Without(bd, k)
    {
      var i :| 0 <= i < |bd| && bd[i] == x;
      assert Without(bd, k)[if i < k then i else i - 1] == x;
    }
    assert forall x :: x in Without(bd, k) ==> x in bd;
  }

  lemma SimRevive(f: FakeState, s: System, promoted: set<string>, id: string)
    requires Sim(f, s.b, promoted) && OneCopy(s)
    ensures Sim(FakeRevive(f, id), Revive(s.b, id), promoted)
    ensures id in f.dead <==> Revives(s.b, id)
  {
    hide SimDelayed, SimDead, SimStatus, OneCopy, FirstWithId;
    var k := FirstWithId(s.b.dead, id);
    FoundInBoth(f.dead, s.b.dead, id);
    if k < |s.b.dead| {
      OnlyDead(s, k);
      DropDead(f.dead, s.b.dead, k);
      SameStatusSet(f, s.b, FakeRevive(f, id), Revive(s.b, id), promoted, id, Pending);
    }
  }

  ghost predicate DistinctTimes(b: BrokerState) {
    forall x, y :: x in b.delayed && y in b.delayed && x != y ==> b.delayed[x] != b.delayed[y]
  }

  /** What one round of FakeBroker's promotion loop does. */
  function FakePromoteOne(f: FakeState): FakeState
    requires f.delayed != []
  {
    f.(pending := f.pending + [PromotedCopy(f.delayed[0].task)], delayed := f.delayed[1..])
  }

  lemma TailWithoutHead<T>(s: seq<T>)
    requires s != [] && forall x :: multiset(s)[x] <= 1
    ensures forall x :: multiset(s[1..])[x] <= 1
    ensures forall x :: x in s[1..] <==> x in s && x != s[0]
  {
    assert s == [s[0]] + s[1..];
    assert multiset(s) == multiset{s[0]} + multiset(s[1..]);
    forall x
      ensures multiset(s[1..])[x] <= 1
    {
      assert multiset(s[1..])[x] <= multiset(s)[x];
    }
    assert s[0] !in s[1..] by {
      assert multiset(s)[s[0]] <= 1;
    }
  }

  lemma DropFirst(fd: seq<DelayedEntry>, bd: map<TaskMessage, int>, m: TaskMessage)
    requires SimDelayed(fd, bd) && fd != [] && fd[0].task == m
    ensures SimDelayed(fd[1..], bd - {m})
  {
    TailWithoutHead(fd);
    assert fd[0] in fd;
  }

  lemma DelayedRecorded(s: System, m: TaskMessage)
    requires LeaseInv(s) && m in s.b.delayed
    ensures m.id in s.b.status && s.b.status[m.id] == m.status && (m.status == Pending || m.status == Retrying)
    ensures !Waits(s.b, m.id)
  {
    OnlyDelayed(s, m);
    assert Recorded(s, m, m.status);
  }

  lemma SimPromoteStatus(f: FakeState, s: System, promoted: set<string>, m: TaskMessage, t: int)
    requires SimStatus(f, s.b, promoted) && !Waits(s.b, m.id)
    requires m.id in s.b.status && s.b.status[m.id] == m.status && (m.status == Pending || m.status == Retrying)
    ensures SimStatus(f, Promote(s.b, m), PromotedNext(promoted, s, PromoteStep(m, t)))
  {
    var b' := Promote(s.b, m);
    assert b'.pending[|s.b.pending|] == PromotedCopy(m);
    forall id | id in PromotedNext(promoted, s, PromoteStep(m, t))
      ensures Waits(b', id)
    {
      if id == m.id {
        assert PromotedCopy(m) in b'.pending;
      } else {
        var x :| x in s.b.pending && x.id == id;
        assert x in b'.pending;
      }
    }
  }

  lemma SameStatuses(f: FakeState, f': FakeState, b: BrokerState, promoted: set<string>)
    requires SimStatus(f, b, promoted) && f'.statuses == f.statuses
    ensures SimStatus(f', b, promoted)
  {
  }

  /** With distinct run times both brokers promote the same task next. */
  lemma SimPromoteOne(f: FakeState, s: System, promoted: set<string>, m: TaskMessage, t: int)
    requires Sim(f, s.b, promoted) && LeaseInv(s) && NextDue(s.b, m, t) && DistinctTimes(s.b)
    ensures f.delayed != [] && f.delayed[0].runAtMs <= t
    ensures Sim(FakePromoteOne(f), Promote(s.b, m), PromotedNext(promoted, s, PromoteStep(m, t)))
  {
    hide SimDead, SimStatus, LeaseInv;
    var entry := DelayedEntry(s.b.delayed[m], m);
    assert entry in f.delayed;
    assert f.delayed[0] in f.delayed;
    assert f.delayed[0] == entry;
    DropFirst(f.delayed, s.b.delayed, m);
    DelayedRecorded(s, m);
    SimPromoteStatus(f, s, promoted, m, t);
    SameStatuses(f, FakePromoteOne(f), Promote(s.b, m), PromotedNext(promoted, s, PromoteStep(m, t)));
  }

  // -------------------------------------------------------------- operations

  /**
   Operations of the Broker interface. A pass names the order in which it meets its
   entries, and an enqueue the id that would be generated for a task without one.
   */
  datatype Operation =
    | TickOp(elapsed: nat)
    | EnqueueOp(task: TaskMessage, generated: string, t: int)
    | PromoteOp(t: int, members: seq<TaskMessage>)
    | ReclaimOp(t: int, timeout: int, ids: seq<string>)
    | ReserveOp(t: int)
    | CompleteOp(slot: nat, outcome: Outcome, t: int)
    | CrashOp(slot: nat)
    | ReviveOp(id: string)
    | StatusOp(id: string)
    | FailureOp(id: string)
    | ResultOp(id: string)
    | DeadListOp
    | StatsOp

  predicate IsQuery(op: Operation) {
    op.StatusOp? || op.FailureOp? || op.ResultOp? || op.DeadListOp? || op.StatsOp?
  }

  /** The atomic steps by which the Redis broker carries out an operation. */
  function StepsOf(op: Operation): seq<Step> {
    match op
    case TickOp(elapsed) => [Tick(elapsed)]
    case EnqueueOp(task, generated, t) => [EnqueueStep(WithId(task, generated), t)]
    case PromoteOp(t, members) => seq(|members|, i requires 0 <= i < |members| => PromoteStep(members[i], t))
    case ReclaimOp(t, timeout, ids) => seq(|ids|, i requires 0 <= i < |ids| => ReclaimStep(ids[i], t, timeout))
    case ReserveOp(t) => [ReserveStep(t)]
    case CompleteOp(slot, outcome, t) => [CompleteStep(slot, outcome, t)]
    case CrashOp(slot) => [CrashStep(slot)]
    case ReviveOp(id) => [ReviveStep(id)]
    case _ => []
  }

  function FakeComplete(f: FakeState, copy: TaskMessage, d: Decision, t: int): FakeState {
    match d
    case DoAck => FakeAck(f, copy.id)
    case DoRetry(reason) => FakeRetry(f, copy, reason, t)
    case DoFail(reason) => FakeFail(f, copy.id, reason)
  }

  /** What the same operation does to FakeBroker. */
  function FakeNext(f: FakeState, s: System, op: Operation): FakeState
    requires op.CompleteOp? ==> op.slot < |s.flight|
  {
    match op
    case EnqueueOp(task, _, t) => FakeEnqueue(f, task, t)
    case PromoteOp(t, _) => FakePromote(f, t)
    case ReclaimOp(t, timeout, ids) => FakeReclaim(f, ids, t, timeout)
    case ReserveOp(t) => FakeReserve(f, t)
    case CompleteOp(slot, outcome, t) => FakeComplete(f, s.flight[slot], Decide(s.flight[slot], outcome), t)
    case ReviveOp(id) => FakeRevive(f, id)
    case _ => f
  }

  /** A lease-held operation; promotion runs to the end, over distinct run times. */
  ghost predicate OpHeld(s: System, op: Operation) {
    && LeaseRun(s, StepsOf(op)) && Run(s, StepsOf(op))
    && (op.PromoteOp? ==> DistinctTimes(s.b) && NothingDue(Exec(s, StepsOf(op)).b, op.t))
  }

  /** A task is enqueued with an id of its own. */
  predicate Named(op: Operation) {
    op.EnqueueOp? ==> WithId(op.task, op.generated) == op.task
  }

  lemma {:induction false} SimPromote(f: FakeState, s: System, promoted: set<string>, t: int, ms: seq<TaskMessage>)
    requires Sim(f, s.b, promoted) && LeaseInv(s) && OpHeld(s, PromoteOp(t, ms))
    ensures var steps := StepsOf(PromoteOp(t, ms));
            Sim(FakePromote(f, t), Exec(s, steps).b, PromotedAfter(promoted, s, steps))
    decreases ms
  {
    var steps := StepsOf(PromoteOp(t, ms));
    if ms == [] {
      if f.delayed != [] {
        assert f.delayed[0] in f.delayed;
      }
    } else {
      hide LeaseInv, SimStatus, SimDead;
      var s' := Next(s, steps[0]);
      assert steps[1..] == StepsOf(PromoteOp(t, ms[1..]));
      SimPromoteOne(f, s, promoted, ms[0], t);
      LeaseStep(s, steps[0]);
      SimPromote(FakePromoteOne(f), s', PromotedNext(promoted, s, steps[0]), t, ms[1..]);
    }
  }

  lemma {:induction false} SimReclaim(
      f: FakeState, s: System, promoted: set<string>, t: int, timeout: int, ids: seq<string>)
    requires Sim(f, s.b, promoted) && LeaseInv(s) && OpHeld(s, ReclaimOp(t, timeout, ids))
    ensures var steps := StepsOf(ReclaimOp(t, timeout, ids));
            Sim(FakeReclaim(f, ids, t, timeout), Exec(s, steps).b, PromotedAfter(promoted, s, steps))
    decreases ids
  {
    var steps := StepsOf(ReclaimOp(t, timeout, ids));
    if ids == [] {
    } else {
      hide Sim, Tidy, OneCopy, Stale;
      var s' := Next(s, steps[0]);
      assert steps[1..] == StepsOf(ReclaimOp(t, timeout, ids[1..]));
      SimReclaimOne(f, s, promoted, ids[0], t, timeout);
      LeaseStep(s, steps[0]);
      SimReclaim(FakeReclaimOne(f, ids[0], t, timeout), s', promoted, t, timeout, ids[1..]);
    }
  }

  lemma SimComplete(f: FakeState, s: System, promoted: set<string>, slot: nat, outcome: Outcome, t: int)
    requires Sim(f, s.b, promoted) && OneCopy(s) && slot < |s.flight| && Holds(s.b, s.flight[slot])
    ensures var f' := FakeComplete(f, s.flight[slot], Decide(s.flight[slot], outcome), t);
            Sim(f', NextComplete(s, slot, outcome, t).b, promoted)
  {
    hide Sim, OneCopy;
    var copy := s.flight[slot];
    match Decide(copy, outcome) {
      case DoAck => SimAck(f, s, promoted, copy.id);
      case DoRetry(reason) => SimRetry(f, s, promoted, copy, reason, t);
      case DoFail(reason) => SimFail(f, s, promoted, copy, reason);
    }
  }

  lemma PromotedOne(promoted: set<string>, s: System, e: Step)
    requires Enabled(s, e)
    ensures Run(s, [e]) && PromotedAfter(promoted, s, [e]) == PromotedNext(promoted, s, e)
  {
    RunOne(s, e);
    assert [e][1..] == [];
  }

  lemma SimOneStep(f: FakeState, s: System, promoted: set<string>, op: Operation, e: Step)
    requires Sim(f, s.b, promoted) && LeaseInv(s) && StepsOf(op) == [e] && LeaseHeld(s, e) && Named(op)
    requires !op.PromoteOp? && !op.ReclaimOp?
    ensures op.CompleteOp? ==> op.slot < |s.flight|
    ensures Sim(FakeNext(f, s, op), Next(s, e).b, PromotedNext(promoted, s, e))
  {
    hide Sim, OneCopy, Tidy, NextComplete, FakeComplete;
    match op {
      case EnqueueOp(task, _, t) => SimEnqueue(f, s, promoted, task, t);
      case ReserveOp(t) => SimReserve(f, s, promoted, t);
      case CompleteOp(slot, outcome, t) => SimComplete(f, s, promoted, slot, outcome, t);
      case ReviveOp(id) => SimRevive(f, s, promoted, id);
      case _ =>
    }
  }

  lemma SimOperation(f: FakeState, s: System, promoted: set<string>, op: Operation)
    requires Sim(f, s.b, promoted) && LeaseInv(s) && OpHeld(s, op) && Named(op)
    ensures op.CompleteOp? ==> op.slot < |s.flight|
    ensures Sim(FakeNext(f, s, op), Exec(s, StepsOf(op)).b, PromotedAfter(promoted, s, StepsOf(op)))
  {
    hide Sim, LeaseInv, PromotedNext, Next, Named;
    if op.PromoteOp? {
      SimPromote(f, s, promoted, op.t, op.members);
    } else if op.ReclaimOp? {
      SimReclaim(f, s, promoted, op.t, op.timeout, op.ids);
    } else if !IsQuery(op) {
      var e := StepsOf(op)[0];
      assert StepsOf(op) == [e];
      RunOne(s, e);
      assert LeaseHeld(s, e);
      PromotedOne(promoted, s, e);
      SimOneStep(f, s, promoted, op, e);
    }
  }

  ghost predicate OpsHeld(s: System, ops: seq<Operation>)
    decreases ops
  {
    ops == [] || (OpHeld(s, ops[0]) && OpsHeld(Exec(s, StepsOf(ops[0])), ops[1..]))
  }

  function RedisExec(s: System, ops: seq<Operation>): System
    requires OpsHeld(s, ops)
    decreases ops
  {
    if ops == [] then s else RedisExec(Exec(s, StepsOf(ops[0])), ops[1..])
  }

  /** The promoted retries still pending after the operations. */
  function PromotedBy(promoted: set<string>, s: System, ops: seq<Operation>): set<string>
    requires OpsHeld(s, ops)
    decreases ops
  {
    if ops == [] then promoted
    else PromotedBy(PromotedAfter(promoted, s, StepsOf(ops[0])), Exec(s, StepsOf(ops[0])), ops[1..])
  }

  lemma SlotExists(s: System, op: Operation)
    requires OpHeld(s, op)
    ensures op.CompleteOp? ==> op.slot < |s.flight|
  {
  }

  function FakeExec(f: FakeState, s: System, ops: seq<Operation>): FakeState
    requires OpsHeld(s, ops)
    decreases ops
  {
    if ops == [] then f
    else
      SlotExists(s, ops[0]);
      FakeExec(FakeNext(f, s, ops[0]), Exec(s, StepsOf(ops[0])), ops[1..])
  }

  lemma {:induction false} SimOperations(f: FakeState, s: System, promoted: set<string>, ops: seq<Operation>)
    requires Sim(f, s.b, promoted) && LeaseInv(s) && OpsHeld(s, ops) && forall op :: op in ops ==> Named(op)
    ensures Sim(FakeExec(f, s, ops), RedisExec(s, ops).b, PromotedBy(promoted, s, ops))
    decreases ops
  {
    hide Sim, LeaseInv, Named;
    if ops == [] {
    } else {
      var s', promoted' := Exec(s, StepsOf(ops[0])), PromotedAfter(promoted, s, StepsOf(ops[0]));
      SimOperation(f, s, promoted, ops[0]);
      LeaseHeldRun(s, StepsOf(ops[0]));
      SimOperations(FakeNext(f, s, ops[0]), s', promoted', ops[1..]);
    }
  }

  /**
   FakeBroker simulates the Redis broker from the empty state, over every
   lease-held sequence of operations with distinct due times, the same reclaim
   order and tasks that have ids: the queue agrees as a sequence, all else as
   contents, and the statuses differ exactly on the promoted retries that are
   still pending.
   */
  lemma FakeSimulatesRedis(start: int, ops: seq<Operation>)
    requires OpsHeld(Init(start), ops) && forall op :: op in ops ==> Named(op)
    ensures Sim(FakeExec(EMPTY_FAKE, Init(start), ops), RedisExec(Init(start), ops).b, PromotedBy({}, Init(start), ops))
  {
    InitLease(start);
    SimOperations(EMPTY_FAKE, Init(start), {}, ops);
  }
}
