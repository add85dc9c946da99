/**
 What callers of the two brokers can see. Two whole systems, Redis and FakeBroker,
 each with its own workers, are driven by the same operations and queries; their
 replies agree exactly under conditions on the operations.
 */
module Replies {
  import opened Tasks
  import opened RetryDelays
  import opened Sums
  import opened Broker
  import opened Protocol
  import opened Safety
  import opened Leases
  import opened Passes
  import opened FakeBroker
  import opened Simulation

  // ----------------------------------------------------------------- replies

  /** What an operation returns to its caller; the dead-letter list is compared as contents. */
  datatype Reply =
    | Done
    | EnqueuedAs(id: string)
    | Reserved(task: Option<TaskMessage>)
    | Reclaimed(count: int)
    | Revived(found: bool)
    | StatusIs(status: Option<TaskStatus>)
    | FailureIs(reason: Option<string>)
    | ResultIs(result: Option<TaskResult>)
    | DeadTasks(tasks: set<TaskMessage>)
    | Stats(pending: nat, delayed: nat, running: nat, dead: nat)

  function Get<V>(m: map<string, V>, id: string): Option<V> {
    if id in m then Some(m[id]) else None
  }

  /** The Redis broker returns reserved and dead messages only if they parse. */
  function RedisReply(s: System, op: Operation): Reply {
    match op
    case EnqueueOp(task, generated, _) => EnqueuedAs(WithId(task, generated).id)
    case ReserveOp(t) =>
      Reserved(if s.b.pending != [] && Parseable(s.b.pending[0]) then Some(ReservedCopy(s.b.pending[0], t)) else None)
    case ReclaimOp(t, timeout, ids) => Reclaimed(ReclaimCount(s.b, ids, t, timeout))
    case ReviveOp(id) => Revived(Revives(s.b, id))
    case StatusOp(id) => StatusIs(Get(s.b.status, id))
    case FailureOp(id) => FailureIs(Get(s.b.failures, id))
    case ResultOp(id) => ResultIs(Get(s.b.results, id))
    case DeadListOp => DeadTasks(set m | m in s.b.dead && Parseable(m))
    case StatsOp => Stats(|s.b.pending|, |s.b.delayed|, |s.b.running|, |s.b.dead|)
    case _ => Done
  }

  function FakeReply(f: FakeState, op: Operation): Reply {
    match op
    case EnqueueOp(task, _, _) => EnqueuedAs(task.id)
    case ReserveOp(t) => Reserved(if f.pending == [] then None else Some(ReservedCopy(f.pending[0], t)))
    case ReclaimOp(t, timeout, ids) => Reclaimed(|FakeReclaim(f, ids, t, timeout).pending| - |f.pending|)
    case ReviveOp(id) => Revived(id in f.dead)
    case StatusOp(id) => StatusIs(Get(f.statuses, id))
    case FailureOp(id) => FailureIs(Get(f.failures, id))
    case ResultOp(id) => ResultIs(Get(f.results, id))
    case DeadListOp => DeadTasks(f.dead.Values)
    case StatsOp => Stats(|f.pending|, |f.delayed|, |f.running|, |f.dead|)
    case _ => Done
  }

  /**
   When the two replies agree: a task is enqueued with an id, a reserve does not
   meet a message that does not parse, and the status asked for is not that of a
   promoted retry still pending.
   */
  predicate Agreeable(s: System, promoted: set<string>, op: Operation) {
    && Named(op)
    && (op.ReserveOp? && s.b.pending != [] ==> Parseable(s.b.pending[0]))
    && (op.StatusOp? ==> op.id !in promoted)
  }

  // -------------------------------------------------------------- same sizes

  lemma {:induction false} SameDelayedCount(fd: seq<DelayedEntry>, bd: map<TaskMessage, int>)
    requires SimDelayed(fd, bd)
    ensures |fd| == |bd|
    decreases fd
  {
    assert forall m :: m in bd ==> DelayedEntry(bd[m], m) in fd;
    if fd == [] {
      assert bd.Keys == {};
    } else {
      assert fd[0] in fd;
      DropFirst(fd, bd, fd[0].task);
      DropKey(bd, fd[0].task);
      hide SimDelayed;
      SameDelayedCount(fd[1..], bd - {fd[0].task});
    }
  }

  predicate DistinctIds(ms: seq<TaskMessage>) {
    forall i, j :: 0 <= i < j < |ms| ==> ms[i].id != ms[j].id
  }

  lemma DeadIdsDistinct(s: System)
    requires OneCopy(s)
    ensures DistinctIds(s.b.dead)
  {
    forall i, j | 0 <= i < j < |s.b.dead|
      ensures s.b.dead[i].id != s.b.dead[j].id
    {
      OnlyDead(s, i);
      assert Without(s.b.dead, i)[j - 1] == s.b.dead[j];
    }
  }

  lemma {:induction false} SameDeadCount(fd: map<string, TaskMessage>, bd: seq<TaskMessage>)
    requires SimDead(fd, bd) && DistinctIds(bd)
    ensures |fd| == |bd|
    decreases bd
  {
    if bd == [] {
      assert fd.Keys == {};
    } else {
      assert bd[0] in bd;
      assert Without(bd, 0) == bd[1..];
      DropDead(fd, bd, 0);
      DropKey(fd, bd[0].id);
      hide SimDead;
      SameDeadCount(fd - {bd[0].id}, bd[1..]);
    }
  }

  lemma SameDeadContents(fd: map<string, TaskMessage>, bd: seq<TaskMessage>)
    requires SimDead(fd, bd)
    ensures fd.Values == set m | m in bd
  {
    forall m | m in bd
      ensures m in fd.Values
    {
      assert fd[m.id] == m;
    }
  }

  // ---------------------------------------------------------- one operation

  /** Whatever a worker holds, or a dead entry is, parses. */
  ghost predicate HeldReadable(s: System) {
    FlightReadable(s) && forall m :: m in s.b.dead ==> Parseable(m)
  }

  lemma HeldReadableStep(s: System, e: Step)
    requires HeldReadable(s) && LeaseHeld(s, e)
    ensures HeldReadable(Next(s, e))
  {
    hide UuidShaped, ValidPolicy;
    if e.CompleteStep? {
      assert s.flight[e.slot] in s.flight;
    }
  }

  lemma {:induction false} HeldReadableRun(s: System, steps: seq<Step>)
    requires HeldReadable(s) && LeaseRun(s, steps) && Run(s, steps)
    ensures HeldReadable(Exec(s, steps))
    decreases steps
  {
    hide HeldReadable, Next;
    if steps == [] {
    } else {
      HeldReadableStep(s, steps[0]);
      HeldReadableRun(Next(s, steps[0]), steps[1..]);
    }
  }

  lemma {:induction false} ReclaimSteps(s: System, t: int, timeout: int, ids: seq<string>)
    requires Run(s, StepsOf(ReclaimOp(t, timeout, ids)))
    ensures Exec(s, StepsOf(ReclaimOp(t, timeout, ids))).b == ReclaimAll(s.b, ids, t, timeout)
    ensures Exec(s, StepsOf(ReclaimOp(t, timeout, ids))).flight == s.flight
    decreases ids
  {
    var steps := StepsOf(ReclaimOp(t, timeout, ids));
    if ids == [] {
    } else {
      assert steps[1..] == StepsOf(ReclaimOp(t, timeout, ids[1..]));
      ReclaimSteps(Next(s, steps[0]), t, timeout, ids[1..]);
    }
  }

  lemma {:induction false} PromoteSteps(s: System, t: int, ms: seq<TaskMessage>)
    requires Run(s, StepsOf(PromoteOp(t, ms)))
    ensures Exec(s, StepsOf(PromoteOp(t, ms))).flight == s.flight
    decreases ms
  {
    var steps := StepsOf(PromoteOp(t, ms));
    if ms == [] {
    } else {
      assert steps[1..] == StepsOf(PromoteOp(t, ms[1..]));
      PromoteSteps(Next(s, steps[0]), t, ms[1..]);
    }
  }

  /** The queries, apart from the status, always agree. */
  lemma QueriesAgree(f: FakeState, s: System, promoted: set<string>, op: Operation)
    requires Sim(f, s.b, promoted) && OneCopy(s) && HeldReadable(s) && IsQuery(op) && !op.StatusOp?
    ensures FakeReply(f, op) == RedisReply(s, op)
  {
    hide UuidShaped, ValidPolicy, SimStatus, SimDelayed, SimDead;
    SameDelayedCount(f.delayed, s.b.delayed);
    DeadIdsDistinct(s);
    SameDeadCount(f.dead, s.b.dead);
    SameDeadContents(f.dead, s.b.dead);
    assert (set m | m in s.b.dead && Parseable(m)) == (set m | m in s.b.dead);
  }

  /** The replies of one operation agree exactly if the operation is one on which they can. */
  lemma RepliesAgreeIff(f: FakeState, s: System, promoted: set<string>, op: Operation)
    requires Sim(f, s.b, promoted) && LeaseInv(s) && HeldReadable(s) && OpHeld(s, op)
    ensures FakeReply(f, op) == RedisReply(s, op) <==> Agreeable(s, promoted, op)
  {
    hide UuidShaped, ValidPolicy, SimDelayed, SimDead, HeldReadable, Tidy, OneCopy;
    if op.ReclaimOp? {
      SimReclaim(f, s, promoted, op.t, op.timeout, op.ids);
      ReclaimSteps(s, op.t, op.timeout, op.ids);
      ReclaimGrowsQueue(s.b, op.ids, op.t, op.timeout);
    } else if op.ReviveOp? {
      SimRevive(f, s, promoted, op.id);
    } else if IsQuery(op) && !op.StatusOp? {
      QueriesAgree(f, s, promoted, op);
    }
  }

  // ------------------------------------------------------- two whole systems

  /** FakeBroker with workers of its own, holding the copies that it handed out. */
  datatype FakeWorld = FakeWorld(f: FakeState, flight: seq<TaskMessage>)

  function WorldNext(w: FakeWorld, op: Operation): FakeWorld {
    match op
    case EnqueueOp(task, _, t) => w.(f := FakeEnqueue(w.f, task, t))
    case PromoteOp(t, _) => w.(f := FakePromote(w.f, t))
    case ReclaimOp(t, timeout, ids) => w.(f := FakeReclaim(w.f, ids, t, timeout))
    case ReserveOp(t) =>
      var reply := FakeReply(w.f, op).task;
      FakeWorld(FakeReserve(w.f, t), if reply.Some? then w.flight + [reply.value] else w.flight)
    case CompleteOp(slot, outcome, t) =>
      if slot >= |w.flight| then w
      else FakeWorld(FakeComplete(w.f, w.flight[slot], Decide(w.flight[slot], outcome), t), Without(w.flight, slot))
    case CrashOp(slot) => if slot >= |w.flight| then w else w.(flight := Without(w.flight, slot))
    case ReviveOp(id) => w.(f := FakeRevive(w.f, id))
    case _ => w
  }

  function WorldExec(w: FakeWorld, ops: seq<Operation>): FakeWorld
    decreases ops
  {
    if ops == [] then w else WorldExec(WorldNext(w, ops[0]), ops[1..])
  }

  function WorldReplies(w: FakeWorld, ops: seq<Operation>): seq<Reply>
    decreases ops
  {
    if ops == [] then [] else [FakeReply(w.f, ops[0])] + WorldReplies(WorldNext(w, ops[0]), ops[1..])
  }

  function RedisReplies(s: System, ops: seq<Operation>): seq<Reply>
    requires OpsHeld(s, ops)
    decreases ops
  {
    if ops == [] then [] else [RedisReply(s, ops[0])] + RedisReplies(Exec(s, StepsOf(ops[0])), ops[1..])
  }

  ghost predicate AllAgreeable(s: System, promoted: set<string>, ops: seq<Operation>)
    requires OpsHeld(s, ops)
    decreases ops
  {
    || ops == []
    || (&& Agreeable(s, promoted, ops[0])
        && AllAgreeable(Exec(s, StepsOf(ops[0])), PromotedAfter(promoted, s, StepsOf(ops[0])), ops[1..]))
  }

  /** Brokers that match, with workers that hold the same copies. */
  ghost predicate Alike(w: FakeWorld, s: System, promoted: set<string>) {
    Sim(w.f, s.b, promoted) && w.flight == s.flight && LeaseInv(s) && HeldReadable(s)
  }

  lemma WorldOperation(w: FakeWorld, s: System, promoted: set<string>, op: Operation)
    requires Alike(w, s, promoted) && OpHeld(s, op) && Agreeable(s, promoted, op)
    ensures Alike(WorldNext(w, op), Exec(s, StepsOf(op)), PromotedAfter(promoted, s, StepsOf(op)))
  {
    hide UuidShaped, ValidPolicy, SimDelayed, SimDead, SimStatus, LeaseInv, HeldReadable, PromotedAfter;
    SimOperation(w.f, s, promoted, op);
    LeaseHeldRun(s, StepsOf(op));
    HeldReadableRun(s, StepsOf(op));
    if op.PromoteOp? {
      PromoteSteps(s, op.t, op.members);
    } else if op.ReclaimOp? {
      ReclaimSteps(s, op.t, op.timeout, op.ids);
    } else if !IsQuery(op) {
      var e := StepsOf(op)[0];
      assert StepsOf(op) == [e];
      RunOne(s, e);
    }
  }

  lemma SameHead<T>(x: T, a: seq<T>, b: seq<T>)
    ensures [x] + a == [x] + b <==> a == b
  {
    assert ([x] + a)[1..] == a && ([x] + b)[1..] == b;
  }

  lemma {:induction false} WorldOperations(w: FakeWorld, s: System, promoted: set<string>, ops: seq<Operation>)
    requires Alike(w, s, promoted) && OpsHeld(s, ops)
    ensures WorldReplies(w, ops) == RedisReplies(s, ops) <==> AllAgreeable(s, promoted, ops)
    ensures AllAgreeable(s, promoted, ops) ==>
              Alike(WorldExec(w, ops), RedisExec(s, ops), PromotedBy(promoted, s, ops))
    decreases ops
  {
    hide Sim, LeaseInv, HeldReadable, WorldNext, FakeReply, RedisReply, Agreeable, StepsOf, Exec, PromotedAfter;
    if ops == [] {
    } else {
      var op := ops[0];
      RepliesAgreeIff(w.f, s, promoted, op);
      if Agreeable(s, promoted, op) {
        var w', s', promoted' := WorldNext(w, op), Exec(s, StepsOf(op)), PromotedAfter(promoted, s, StepsOf(op));
        WorldOperation(w, s, promoted, op);
        WorldOperations(w', s', promoted', ops[1..]);
        SameHead(FakeReply(w.f, op), WorldReplies(w', ops[1..]), RedisReplies(s', ops[1..]));
      } else {
        assert WorldReplies(w, ops)[0] != RedisReplies(s, ops)[0];
      }
    }
  }

  const EMPTY_WORLD := FakeWorld(EMPTY_FAKE, [])

  lemma EmptyAlike(start: int)
    ensures Alike(EMPTY_WORLD, Init(start), {})
  {
    InitLease(start);
  }

  /**
   Two whole systems, from empty, driven by the same lease-held operations with
   distinct due times and the same reclaim order: all replies, those of queries
   included, agree if and only if every task is enqueued with an id, no reserve
   meets a message that does not parse, and no status is asked for of a promoted
   retry still pending; and then the brokers match and the workers hold the same
   copies at the end.
   */
  lemma IndistinguishableIff(start: int, ops: seq<Operation>)
    requires OpsHeld(Init(start), ops)
    ensures WorldReplies(EMPTY_WORLD, ops) == RedisReplies(Init(start), ops) <==> AllAgreeable(Init(start), {}, ops)
    ensures AllAgreeable(Init(start), {}, ops) ==>
              Alike(WorldExec(EMPTY_WORLD, ops), RedisExec(Init(start), ops), PromotedBy({}, Init(start), ops))
  {
    EmptyAlike(start);
    WorldOperations(EMPTY_WORLD, Init(start), {}, ops);
  }

  // ------------------------------------------------------- valid tasks suffice

  ghost predicate CopiesReadable(s: System) {
    forall m :: IsCopy(s, m) ==> Parseable(m)
  }

  /** Only messages that parse are enqueued. */
  predicate EnqueuesReadable(steps: seq<Step>) {
    forall e :: e in steps && e.EnqueueStep? ==> Parseable(e.task)
  }

  lemma {:induction false} CopiesStayReadable(s: System, steps: seq<Step>)
    requires CopiesReadable(s) && Run(s, steps) && EnqueuesReadable(steps)
    ensures CopiesReadable(Exec(s, steps))
    decreases steps
  {
    if steps == [] {
    } else {
      hide UuidShaped, ValidPolicy;
      forall m | IsCopy(Next(s, steps[0]), m)
        ensures Parseable(m)
      {
        var o := CopyOrigin(s, steps[0], m);
      }
      hide IsCopy, Next, Enabled;
      CopiesStayReadable(Next(s, steps[0]), steps[1..]);
    }
  }

  /** Valid tasks, and no status queries. */
  predicate Plain(op: Operation) {
    !op.StatusOp? && (op.EnqueueOp? ==> Parseable(op.task))
  }

  lemma ParseableIsNamed(m: TaskMessage, generated: string)
    requires Parseable(m)
    ensures WithId(m, generated) == m
  {
  }

  lemma PlainIsAgreeable(s: System, promoted: set<string>, op: Operation)
    requires CopiesReadable(s) && Run(s, StepsOf(op)) && Plain(op)
    ensures Agreeable(s, promoted, op) && CopiesReadable(Exec(s, StepsOf(op)))
  {
    hide UuidShaped, ValidPolicy;
    assert s.b.pending != [] ==> IsCopy(s, s.b.pending[0]);
    if op.EnqueueOp? {
      ParseableIsNamed(op.task, op.generated);
    }
    CopiesStayReadable(s, StepsOf(op));
  }

  /** If every task is enqueued with a message that parses, only the status of promoted retries can differ. */
  lemma {:induction false} PlainOperationsAgree(s: System, promoted: set<string>, ops: seq<Operation>)
    requires CopiesReadable(s) && OpsHeld(s, ops) && forall op :: op in ops ==> Plain(op)
    ensures AllAgreeable(s, promoted, ops)
    decreases ops
  {
    hide CopiesReadable, Plain, Agreeable, StepsOf, PromotedAfter;
    if ops == [] {
    } else {
      PlainIsAgreeable(s, promoted, ops[0]);
      PlainOperationsAgree(Exec(s, StepsOf(ops[0])), PromotedAfter(promoted, s, StepsOf(ops[0])), ops[1..]);
    }
  }

  // -------------------------------------------------------- where they differ

  lemma OneOp(s: System, op: Operation, e: Step)
    requires StepsOf(op) == [e] && LeaseHeld(s, e) && !op.PromoteOp?
    ensures OpHeld(s, op) && Exec(s, StepsOf(op)) == Next(s, e)
  {
    RunOne(s, e);
    assert LeaseRun(s, [e]) by {
      assert [e][1..] == [];
    }
  }

  lemma OpsCons(s: System, op: Operation, rest: seq<Operation>)
    requires OpHeld(s, op) && OpsHeld(Exec(s, StepsOf(op)), rest)
    ensures OpsHeld(s, [op] + rest)
    ensures forall promoted :: AllAgreeable(s, promoted, [op] + rest) ==>
              AllAgreeable(Exec(s, StepsOf(op)), PromotedAfter(promoted, s, StepsOf(op)), rest)
  {
    assert ([op] + rest)[0] == op && ([op] + rest)[1..] == rest;
  }

  lemma LastOp(s: System, promoted: set<string>, op: Operation)
    requires OpHeld(s, op)
    ensures OpsHeld(s, [op])
    ensures AllAgreeable(s, promoted, [op]) <==> Agreeable(s, promoted, op)
  {
    assert [op][1..] == [];
  }

  /** A task enqueued without an id is returned under the generated one by Redis only. */
  lemma MissingIdDiffers(start: int, m: TaskMessage, generated: string)
    requires m.id == "" && generated != ""
    ensures var ops := [EnqueueOp(m, generated, start)];
            OpsHeld(Init(start), ops) && WorldReplies(EMPTY_WORLD, ops) != RedisReplies(Init(start), ops)
  {
    var op := EnqueueOp(m, generated, start);
    OneOp(Init(start), op, EnqueueStep(WithId(m, generated), start));
    LastOp(Init(start), {}, op);
    IndistinguishableIff(start, [op]);
  }

  /** A message that does not parse is handed out by FakeBroker only. */
  lemma UnreadableReserveDiffers(start: int, m: TaskMessage)
    requires !Parseable(m) && m.id != "" && m.runAtMs.None?
    ensures var ops := [EnqueueOp(m, "", start)] + [ReserveOp(start)];
            OpsHeld(Init(start), ops) && WorldReplies(EMPTY_WORLD, ops) != RedisReplies(Init(start), ops)
  {
    hide UuidShaped, ValidPolicy, AllAgreeable;
    var enqueue, reserve := EnqueueOp(m, "", start), ReserveOp(start);
    OneOp(Init(start), enqueue, EnqueueStep(m, start));
    var s := Next(Init(start), EnqueueStep(m, start));
    OneOp(s, reserve, ReserveStep(start));
    LastOp(s, {}, reserve);
    OpsCons(Init(start), enqueue, [reserve]);
    PromotedOne({}, Init(start), EnqueueStep(m, start));
    IndistinguishableIff(start, [enqueue] + [reserve]);
  }

  lemma RetryPromoted(s: System, r: TaskMessage, id: string)
    requires s.b.delayed == map[r := s.now] && r.status == Retrying && r.id == id
    ensures var op := PromoteOp(s.now, [r]);
            && OpHeld(s, op)
            && OpsHeld(s, [op] + [StatusOp(id)])
            && !AllAgreeable(s, {}, [op] + [StatusOp(id)])
  {
    var op, e := PromoteOp(s.now, [r]), PromoteStep(r, s.now);
    assert StepsOf(op) == [e];
    RunOne(s, e);
    assert LeaseRun(s, [e]) by {
      assert [e][1..] == [];
    }
    PromotedOne({}, s, e);
    var s' := Next(s, e);
    assert s'.b.delayed == map[];
    LastOp(s', {id}, StatusOp(id));
    OpsCons(s, op, [StatusOp(id)]);
  }

  /** Enqueuing, reserving and failing a task leaves its retry as the only delayed member. */
  lemma FirstFailure(start: int, m: TaskMessage, error: string) returns (s1: System, s2: System, s3: System)
    requires Parseable(m) && ShouldRetry(m) && m.runAtMs.None?
    ensures LeaseHeld(Init(start), EnqueueStep(m, start)) && s1 == Next(Init(start), EnqueueStep(m, start))
    ensures LeaseHeld(s1, ReserveStep(start)) && s2 == Next(s1, ReserveStep(start))
    ensures LeaseHeld(s2, CompleteStep(0, Failure(error), start))
    ensures s3 == Next(s2, CompleteStep(0, Failure(error), start))
    ensures var r := RetriedCopy(ReservedCopy(EnqueuedCopy(m, start), start), error, start);
            s3.b.delayed == map[r := r.runAtMs.value] && s3.now == start
  {
    hide UuidShaped, ValidPolicy, ComputeRetryDelayMs;
    s1 := Next(Init(start), EnqueueStep(m, start));
    s2 := Next(s1, ReserveStep(start));
    s3 := Next(s2, CompleteStep(0, Failure(error), start));
  }

  lemma LeaseHeldEnabled(s: System, e: Step)
    requires LeaseHeld(s, e)
    ensures Enabled(s, e)
  {
  }

  lemma TickIsHeld(s: System, elapsed: nat)
    ensures LeaseHeld(s, Tick(elapsed)) && Next(s, Tick(elapsed)) == s.(now := s.now + elapsed)
  {
  }

  /** One more operation in front, with no promoted retries before or after it. */
  lemma StillDiffers(s: System, op: Operation, e: Step, rest: seq<Operation>)
    requires StepsOf(op) == [e] && LeaseHeld(s, e) && !op.PromoteOp? && !e.PromoteStep?
    requires OpsHeld(Next(s, e), rest) && !AllAgreeable(Next(s, e), {}, rest)
    ensures OpsHeld(s, [op] + rest) && !AllAgreeable(s, {}, [op] + rest)
  {
    hide LeaseHeld, AllAgreeable, OpsHeld, OpHeld, Next;
    OneOp(s, op, e);
    assert Enabled(s, e) by {
      LeaseHeldEnabled(s, e);
    }
    PromotedOne({}, s, e);
    assert PromotedNext({}, s, e) == {};
    OpsCons(s, op, rest);
  }

  /** From a state whose only delayed member is a retry: wait for it, promote it, ask for its status. */
  function WaitAndAsk(r: TaskMessage, wait: nat, due: int): seq<Operation> {
    [TickOp(wait)] + ([PromoteOp(due, [r])] + [StatusOp(r.id)])
  }

  lemma WaitAndAskDiffers(s: System, r: TaskMessage, wait: nat)
    requires s.b.delayed == map[r := s.now + wait] && r.status == Retrying
    ensures OpsHeld(s, WaitAndAsk(r, wait, s.now + wait)) && !AllAgreeable(s, {}, WaitAndAsk(r, wait, s.now + wait))
  {
    hide AllAgreeable, OpsHeld;
    TickIsHeld(s, wait);
    RetryPromoted(s.(now := s.now + wait), r, r.id);
    StillDiffers(s, TickOp(wait), Tick(wait), [PromoteOp(s.now + wait, [r])] + [StatusOp(r.id)]);
  }

  /** Enqueue a task, reserve it and fail it once, and go on. */
  function FailOnceAnd(start: int, m: TaskMessage, error: string, rest: seq<Operation>): seq<Operation> {
    [EnqueueOp(m, "", start)] + ([ReserveOp(start)] + ([CompleteOp(0, Failure(error), start)] + rest))
  }

  lemma NamedAndDelayed(m: TaskMessage)
    requires Parseable(m) && ShouldRetry(m)
    ensures m.id != "" && ComputeRetryDelayMs(m.policy, m.retryCount + 1) >= 0
  {
    RetryDelayBounded(m.policy, m.retryCount + 1);
  }

  /** A promoted retry reads retrying in FakeBroker and pending in Redis: a run that shows it, for every task. */
  lemma PromotedRetryDiffers(start: int, m: TaskMessage, error: string) returns (ops: seq<Operation>)
    requires Parseable(m) && ShouldRetry(m) && m.runAtMs.None?
    ensures var r := RetriedCopy(ReservedCopy(EnqueuedCopy(m, start), start), error, start);
            && r.runAtMs.value >= start
            && ops == FailOnceAnd(start, m, error, WaitAndAsk(r, r.runAtMs.value - start, r.runAtMs.value))
    ensures OpsHeld(Init(start), ops) && WorldReplies(EMPTY_WORLD, ops) != RedisReplies(Init(start), ops)
  {
    hide Parseable, ShouldRetry, ComputeRetryDelayMs, AllAgreeable, OpsHeld, LeaseHeld, Next,
      WorldReplies, RedisReplies;
    NamedAndDelayed(m);
    var s1, s2, s3 := FirstFailure(start, m, error);
    var r := RetriedCopy(ReservedCopy(EnqueuedCopy(m, start), start), error, start);
    var wait := r.runAtMs.value - start;
    WaitAndAskDiffers(s3, r, wait);
    var rest := WaitAndAsk(r, wait, start + wait);
    var complete := CompleteOp(0, Failure(error), start);
    StillDiffers(s2, complete, CompleteStep(0, Failure(error), start), rest);
    StillDiffers(s1, ReserveOp(start), ReserveStep(start), [complete] + rest);
    StillDiffers(Init(start), EnqueueOp(m, "", start), EnqueueStep(m, start), [ReserveOp(start)] + ([complete] + rest));
    ops := FailOnceAnd(start, m, error, rest);
    IndistinguishableIff(start, ops);
  }
}
