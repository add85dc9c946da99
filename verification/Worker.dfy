/**
 A worker's polling step, and recovery by repeating it: every step is one of the
 protocol's, so what the loop does is a lease-held run of it. Other workers may
 hold copies of tasks that they will never complete, and the queue may hold
 messages that do not parse.
 */
module Worker {
  import opened Tasks
  import opened Sums
  import opened Broker
  import opened Protocol
  import opened Safety
  import opened Leases
  import opened Passes

  // -------------------------------------------------------------------- runs

  predicate AddsNothing(e: Step) {
    !e.EnqueueStep? && !e.ReviveStep?
  }

  /** The steps are a lease-held run from s to cur that enqueues and revives nothing. */
  ghost predicate Works(s: System, steps: seq<Step>, cur: System) {
    && LeaseRun(s, steps) && Run(s, steps) && Exec(s, steps) == cur
    && forall e :: e in steps ==> AddsNothing(e)
  }

  lemma WorksNot(s: System)
    ensures Works(s, [], s)
  {
  }

  lemma {:induction false} WorksTogether(s: System, a: seq<Step>, mid: System, b: seq<Step>, cur: System)
    requires Works(s, a, mid) && Works(mid, b, cur)
    ensures Works(s, a + b, cur)
    decreases a
  {
    if a == [] {
      assert a + b == b;
    } else {
      assert (a + b)[0] == a[0] && (a + b)[1..] == a[1..] + b;
      WorksTogether(Next(s, a[0]), a[1..], mid, b, cur);
    }
  }

  lemma WorksNext(s: System, steps: seq<Step>, cur: System, e: Step)
    requires Works(s, steps, cur) && LeaseHeld(cur, e) && AddsNothing(e)
    ensures Works(s, steps + [e], Next(cur, e))
  {
    RunOne(cur, e);
    assert LeaseRun(cur, [e]) by {
      assert [e][1..] == [];
    }
    assert Works(cur, [e], Next(cur, e));
    hide Works;
    WorksTogether(s, steps, cur, [e], Next(cur, e));
  }

  // --------------------------------------------------------------- work left

  /** Executions left in the broker's live copies, the running ones included. */
  ghost function WorkLeft(b: BrokerState): int {
    Sum(b.pending, LifeWeight()) + SumSet(b.delayed.Keys, LifeWeight()) + SumSet(b.running.Values, LifeWeight())
  }

  lemma WorkNonNegative(b: BrokerState)
    ensures WorkLeft(b) >= 0
  {
    hide Parseable;
    SumAtLeast(b.pending, LifeWeight());
    SumSetAtLeast(b.delayed.Keys, LifeWeight());
    SumSetAtLeast(b.running.Values, LifeWeight());
  }

  lemma DropRunning(b: BrokerState, id: string, w: TaskMessage -> int)
    requires FiledById(b) && id in b.running
    ensures SumSet((b.running - {id}).Values, w) == SumSet(b.running.Values, w) - w(b.running[id])
  {
    var rest := b.running - {id};
    forall m | m in b.running.Values && m != b.running[id]
      ensures m in rest.Values
    {
      var k :| k in b.running && b.running[k] == m;
      assert rest[k] == m;
    }
    assert rest.Values == b.running.Values - {b.running[id]};
    SumSetRemove(b.running.Values, b.running[id], w);
  }

  lemma AddRunning(b: BrokerState, m: TaskMessage, w: TaskMessage -> int)
    requires FiledById(b) && m.id !in b.running
    ensures SumSet(b.running[m.id := m].Values, w) == SumSet(b.running.Values, w) + w(m)
  {
    var more := b.running[m.id := m];
    forall x | x in b.running.Values
      ensures x in more.Values
    {
      var k :| k in b.running && b.running[k] == x;
      assert more[k] == x;
    }
    assert more[m.id] == m;
    assert more.Values == b.running.Values + {m};
    SumSetInsert(b.running.Values, m, w);
  }

  lemma WorkComplete(s: System, slot: nat, outcome: Outcome, t: int)
    requires FiledById(s.b) && FlightReadable(s) && slot < |s.flight| && Holds(s.b, s.flight[slot])
    ensures WorkLeft(NextComplete(s, slot, outcome, t).b) <= WorkLeft(s.b) - 1
  {
    hide UuidShaped, Sum, SumSet;
    var copy, w := s.flight[slot], LifeWeight();
    assert Parseable(copy);
    DropRunning(s.b, copy.id, w);
    var d := Decide(copy, outcome);
    if d.DoRetry? {
      var r := RetriedCopy(copy, d.reason, t);
      InsertKey(s.b.delayed, r, r.runAtMs.value, w);
    }
  }

  /** No lease-held step but an enqueue or a dead-letter retry adds work, and a completion uses some up. */
  lemma WorkStep(s: System, e: Step)
    requires OneCopy(s) && FlightReadable(s) && LeaseHeld(s, e) && AddsNothing(e)
    ensures WorkLeft(Next(s, e).b) <= WorkLeft(s.b) - (Next(s, e).completions - s.completions)
  {
    hide UuidShaped, Sum, SumSet;
    var w := LifeWeight();
    match e {
      case PromoteStep(m, _) =>
        RemoveKey(s.b.delayed, m, w);
        SumAppend(s.b.pending, PromotedCopy(m), w);
      case ReserveStep(t) =>
        if s.b.pending != [] {
          OnlyPending(s, 0);
          SumFirst(s.b.pending, w);
          AddRunning(s.b, ReservedCopy(s.b.pending[0], t), w);
        }
      case ReclaimStep(id, t, timeout) =>
        if Reclaims(s.b, id, t, timeout) {
          DropRunning(s.b, id, w);
          SumAppend(s.b.pending, ReclaimedCopy(s.b.running[id]), w);
        }
      case CompleteStep(slot, outcome, t) => WorkComplete(s, slot, outcome, t);
      case _ =>
    }
  }

  /**
   In a lease-held run without enqueues and dead-letter retries, reclaims and
   crashes included, by any number of workers, at most WorkLeft executions
   complete.
   */
  lemma {:induction false} CompletionsUseUpWork(s: System, steps: seq<Step>)
    requires LeaseInv(s) && FlightReadable(s) && LeaseRun(s, steps) && Run(s, steps)
    requires forall e :: e in steps ==> AddsNothing(e)
    ensures 0 <= WorkLeft(Exec(s, steps).b) <= WorkLeft(s.b) - (Exec(s, steps).completions - s.completions)
    decreases steps
  {
    hide Tidy, FlightReadable, WorkLeft;
    if steps == [] {
      WorkNonNegative(s.b);
    } else {
      LeaseStep(s, steps[0]);
      ReadableStep(s, steps[0]);
      WorkStep(s, steps[0]);
      CompletionsUseUpWork(Next(s, steps[0]), steps[1..]);
    }
  }

  /** What every lease-held history guarantees. */
  ghost predicate Sound(s: System) {
    LeaseInv(s) && AllTraced(s) && FlightReadable(s)
  }

  lemma SoundAfter(start: int, steps: seq<Step>)
    requires LeaseRun(Init(start), steps)
    ensures Run(Init(start), steps) && Sound(Exec(Init(start), steps))
  {
    InitLease(start);
    LeaseHeldRun(Init(start), steps);
    EveryCopyIsTraced(Init(start), steps);
    OnlyReadableAreHandedOut(Init(start), steps);
  }

  lemma SoundWork(s: System, steps: seq<Step>, cur: System)
    requires Sound(s) && Works(s, steps, cur)
    ensures Sound(cur) && 0 <= WorkLeft(cur.b) <= WorkLeft(s.b) - (cur.completions - s.completions)
  {
    hide LeaseInv, AllTraced, FlightReadable, WorkLeft;
    LeaseHeldRun(s, steps);
    EveryCopyIsTraced(s, steps);
    OnlyReadableAreHandedOut(s, steps);
    CompletionsUseUpWork(s, steps);
  }

  // ---------------------------------------------------------- scheduler tick

  predicate SameButBroker(s: System, cur: System) {
    cur.now == s.now && cur.flight == s.flight && cur.completions == s.completions && cur.enqueued == s.enqueued
  }

  /** A step of a maintenance pass: only the broker changes. */
  lemma PassStep(s: System, steps: seq<Step>, cur: System, e: Step)
    requires Works(s, steps, cur) && Enabled(cur, e) && (e.PromoteStep? || e.ReclaimStep?)
    ensures Works(s, steps + [e], Next(cur, e)) && SameButBroker(cur, Next(cur, e))
    ensures e.PromoteStep? ==> Next(cur, e).b == Promote(cur.b, e.member)
    ensures e.ReclaimStep? ==> Next(cur, e).b == Reclaim(cur.b, e.id, e.t, e.timeout)
  {
    hide Works;
    WorksNext(s, steps, cur, e);
  }

  /** The member the promotion script picks, if any is due. */
  method NextToPromote(b: BrokerState, t: int) returns (due: Option<TaskMessage>)
    ensures if due.Some? then NextDue(b, due.value, t) else NothingDue(b, t)
  {
    due := FirstDue(b.delayed, t);
  }

  lemma PromotingNext(b: BrokerState, t: int, ms: seq<TaskMessage>, m: TaskMessage)
    requires PromotePass(b, t, ms) && NextDue(PromoteAll(b, ms), m, t)
    ensures PromotePass(b, t, ms + [m]) && PromoteAll(b, ms + [m]) == Promote(PromoteAll(b, ms), m)
    ensures |Promote(PromoteAll(b, ms), m).delayed| < |PromoteAll(b, ms).delayed|
  {
    PassAppend(b, t, ms, m);
    DropKey(PromoteAll(b, ms).delayed, m);
  }

  /** Promote with one clock reading until nothing is due: a complete promotion pass. */
  method PromoteDueTasks(s: System, t: int) returns (cur: System, ghost steps: seq<Step>, ghost ms: seq<TaskMessage>)
    requires t <= s.now
    ensures Works(s, steps, cur) && SameButBroker(s, cur)
    ensures PromotePass(s.b, t, ms) && cur.b == PromoteAll(s.b, ms) && NothingDue(cur.b, t)
  {
    cur, steps, ms := s, [], [];
    WorksNot(s);
    hide Works, Next, Promote, NextDue, NothingDue;
    var due := NextToPromote(cur.b, t);
    while due.Some?
      invariant Works(s, steps, cur) && SameButBroker(s, cur)
      invariant PromotePass(s.b, t, ms) && cur.b == PromoteAll(s.b, ms)
      invariant if due.Some? then NextDue(cur.b, due.value, t) else NothingDue(cur.b, t)
      decreases |cur.b.delayed| + if due.Some? then 1 else 0
    {
      hide PromotePass, PromoteAll;
      var e := PromoteStep(due.value, t);
      PromotingNext(s.b, t, ms, due.value);
      PassStep(s, steps, cur, e);
      ms := ms + [due.value];
      steps := steps + [e];
      cur := Next(cur, e);
      due := NextToPromote(cur.b, t);
    }
  }

  /** Reclaim, one script for each id of a snapshot of the running hash: a complete reclaim pass. */
  method ReclaimStaleTasks(s: System, t: int, timeout: int)
    returns (cur: System, ghost steps: seq<Step>, ghost ids: seq<string>)
    requires t <= s.now
    ensures Works(s, steps, cur) && SameButBroker(s, cur)
    ensures Distinct(ids) && forall id :: id in ids <==> id in s.b.running
    ensures cur.b == ReclaimAll(s.b, ids, t, timeout)
  {
    cur, steps, ids := s, [], [];
    WorksNot(s);
    hide Works, Next, Reclaim;
    var rest := s.b.running.Keys;
    while rest != {}
      invariant Works(s, steps, cur) && SameButBroker(s, cur)
      invariant rest <= s.b.running.Keys && Distinct(ids)
      invariant forall id :: id in ids <==> id in s.b.running && id !in rest
      invariant cur.b == ReclaimAll(s.b, ids, t, timeout)
      decreases rest
    {
      hide ReclaimAll;
      var id :| id in rest;
      var e := ReclaimStep(id, t, timeout);
      ReclaimAppend(s.b, ids, id, t, timeout);
      PassStep(s, steps, cur, e);
      rest := rest - {id};
      ids := ids + [id];
      steps := steps + [e];
      cur := Next(cur, e);
    }
  }

  /** The members and ids are those of a complete promotion pass and then a complete reclaim pass. */
  ghost predicate IsTick(b: BrokerState, ms: seq<TaskMessage>, ids: seq<string>, t: int) {
    && PromotePass(b, t, ms) && NothingDue(PromoteAll(b, ms), t)
    && Distinct(ids) && forall id :: id in ids <==> id in b.running
  }

  function AfterTick(b: BrokerState, ms: seq<TaskMessage>, ids: seq<string>, t: int, timeout: int): BrokerState {
    ReclaimAll(PromoteAll(b, ms), ids, t, timeout)
  }

  /** Something is pending, due or stale. */
  predicate WorkAvailable(b: BrokerState, t: int, timeout: int) {
    b.pending != [] || !NothingDue(b, t) || !NothingStale(b, t, timeout)
  }

  /** The queue after a tick: what waited before, then everything due and everything stale. */
  lemma TickQueue(b: BrokerState, ms: seq<TaskMessage>, ids: seq<string>, t: int, timeout: int)
    requires IsTick(b, ms, ids, t)
    ensures var q := AfterTick(b, ms, ids, t, timeout).pending;
            && b.pending <= q
            && (forall m :: m in b.delayed && b.delayed[m] <= t ==> PromotedCopy(m) in q)
            && (forall id :: id in b.running && Stale(b.running[id], t, timeout) ==> ReclaimedCopy(b.running[id]) in q)
            && (q != [] <==> WorkAvailable(b, t, timeout))
    ensures NothingStale(AfterTick(b, ms, ids, t, timeout), t, timeout)
  {
    var b1 := PromoteAll(b, ms);
    PromotePassIsExact(b, t, ms);
    ReclaimPassIsExact(b1, ids, t, timeout);
    ReclaimedCopiesMembers(b1.running, ids, t, timeout);
    var q := AfterTick(b, ms, ids, t, timeout).pending;
    assert q == b.pending + PromotedCopies(ms) + ReclaimedCopies(b.running, ids, t, timeout);
    forall m | m in b.delayed && b.delayed[m] <= t
      ensures PromotedCopy(m) in q
    {
      var i :| 0 <= i < |ms| && ms[i] == m;
      assert PromotedCopies(ms)[i] == PromotedCopy(m);
    }
    if q != [] && b.pending == [] && PromotedCopies(ms) != [] {
      assert ms[0] in ms;
    }
    forall id | id in AfterTick(b, ms, ids, t, timeout).running
      ensures !Stale(AfterTick(b, ms, ids, t, timeout).running[id], t, timeout)
    {
      assert EntryAfterReclaim(b1, ids, AfterTick(b, ms, ids, t, timeout), t, timeout, id);
    }
  }

  // ------------------------------------------------------------ polling step

  /** What a worker does with the message it was given, and what the broker becomes. */
  function AfterExecution(b: BrokerState, handler: TaskMessage -> Outcome, t: int, elapsed: nat): BrokerState
    requires b.pending != []
  {
    var copy := ReservedCopy(b.pending[0], t);
    CompleteBroker(Reserve(b, t), copy, Decide(copy, handler(copy)), t + elapsed)
  }

  /** Reserve the next task; if its message parses, run its handler for some time, and complete it. */
  method Execute(s: System, handler: TaskMessage -> Outcome, elapsed: nat)
    returns (ran: bool, cur: System, ghost steps: seq<Step>)
    requires s.b.pending != []
    ensures Works(s, steps, cur) && cur.flight == s.flight && cur.enqueued == s.enqueued
    ensures ran <==> Parseable(s.b.pending[0])
    ensures cur.completions == s.completions + if ran then 1 else 0
    ensures cur.b == if ran then AfterExecution(s.b, handler, s.now, elapsed) else Reserve(s.b, s.now)
  {
    hide UuidShaped, ValidPolicy;
    var t := s.now;
    var reserve := ReserveStep(t);
    WorksNot(s);
    WorksNext(s, [], s, reserve);
    cur, steps := Next(s, reserve), [reserve];
    assert [] + [reserve] == steps;
    ran := Parseable(s.b.pending[0]);
    if ran {
      var slot := |s.flight|;
      var copy := cur.flight[slot];
      ghost var reserved := cur;
      var work := Tick(elapsed);
      var complete := CompleteStep(slot, handler(copy), t + elapsed);
      hide Works;
      WorksNext(s, steps, reserved, work);
      WorksNext(s, steps + [work], Next(reserved, work), complete);
      steps := steps + [work] + [complete];
      cur := Next(Next(cur, work), complete);
    }
  }

  /**
   One polling step: promote and reclaim with one clock reading, reserve, and, if
   the worker gets a message, run its handler for some time and complete it. It
   reports whether it got one.
   */
  method RunOnce(s: System, timeout: int, handler: TaskMessage -> Outcome, elapsed: nat)
    returns (ran: bool, cur: System, ghost steps: seq<Step>, ghost ms: seq<TaskMessage>, ghost ids: seq<string>)
    ensures Works(s, steps, cur) && cur.flight == s.flight && cur.enqueued == s.enqueued
    ensures IsTick(s.b, ms, ids, s.now)
    ensures var ready := AfterTick(s.b, ms, ids, s.now, timeout);
            && (ready.pending != [] <==> WorkAvailable(s.b, s.now, timeout))
            && (ran <==> ready.pending != [] && Parseable(ready.pending[0]))
            && cur.b == if ran then AfterExecution(ready, handler, s.now, elapsed) else Reserve(ready, s.now)
    ensures cur.completions == s.completions + if ran then 1 else 0
    ensures Sound(s) ==> Sound(cur) && 0 <= WorkLeft(cur.b) <= WorkLeft(s.b) - if ran then 1 else 0
  {
    hide Works, Sound, WorkLeft, UuidShaped, ValidPolicy, PromotePass, PromoteAll, ReclaimAll;
    ghost var more;
    var mid, ready;
    mid, steps, ms := PromoteDueTasks(s, s.now);
    assert mid.b.running == s.b.running by {
      PromotePassIsExact(s.b, s.now, ms);
    }
    ready, more, ids := ReclaimStaleTasks(mid, s.now, timeout);
    TickQueue(s.b, ms, ids, s.now, timeout);
    WorksTogether(s, steps, mid, more, ready);
    steps := steps + more;
    if ready.b.pending == [] {
      ran, cur := false, ready;
    } else {
      ran, cur, more := Execute(ready, handler, elapsed);
      WorksTogether(s, steps, ready, more, cur);
      steps := steps + more;
    }
    if Sound(s) {
      SoundWork(s, steps, cur);
    }
  }

  // ---------------------------------------------------------------- recovery

  predicate ReadablePending(b: BrokerState) {
    exists i :: 0 <= i < |b.pending| && Parseable(b.pending[i])
  }

  /** Some live task can still be executed. */
  predicate ReadableLeft(b: BrokerState) {
    || ReadablePending(b)
    || (exists m :: m in b.delayed && Parseable(m))
    || (exists id :: id in b.running && Parseable(b.running[id]))
  }

  /** The position of the first message that parses, or the length. */
  function FirstReadable(q: seq<TaskMessage>): (k: nat)
    ensures k <= |q|
    ensures k < |q| ==> Parseable(q[k])
    ensures forall i :: 0 <= i < k ==> !Parseable(q[i])
  {
    if q == [] || Parseable(q[0]) then 0 else 1 + FirstReadable(q[1..])
  }

  /** Sleep until a task that parses is due, or has a lease that has run out. */
  method Sleep(s: System, timeout: nat) returns (cur: System, ghost steps: seq<Step>)
    requires FiledById(s.b) && ReadableLeft(s.b) && !ReadablePending(s.b)
    ensures Works(s, steps, cur) && cur.b == s.b && cur.flight == s.flight
    ensures cur.completions == s.completions && cur.enqueued == s.enqueued
    ensures || (exists m :: m in s.b.delayed && Parseable(m) && s.b.delayed[m] <= cur.now)
            || (exists id :: id in s.b.running && Parseable(s.b.running[id])
                             && Stale(s.b.running[id], cur.now, timeout))
  {
    hide UuidShaped, ValidPolicy;
    var until: int;
    if exists m :: m in s.b.delayed && Parseable(m) {
      var m :| m in s.b.delayed && Parseable(m);
      until := s.b.delayed[m];
    } else {
      var id :| id in s.b.running && Parseable(s.b.running[id]);
      until := s.b.running[id].reservedAtMs.value + timeout + 1;
    }
    var e := Tick(if until > s.now then until - s.now else 0);
    WorksNot(s);
    WorksNext(s, [], s, e);
    steps, cur := [e], Next(s, e);
    assert [] + [e] == steps;
  }

  /** After a polling step that got no message, the first one that parses is nearer to the front. */
  lemma NearerToFront(b: BrokerState, ms: seq<TaskMessage>, ids: seq<string>, t: int, timeout: int)
    requires IsTick(b, ms, ids, t)
    requires || ReadablePending(b)
             || (exists m :: m in b.delayed && Parseable(m) && b.delayed[m] <= t)
             || (exists id :: id in b.running && Parseable(b.running[id]) && Stale(b.running[id], t, timeout))
    ensures var ready := AfterTick(b, ms, ids, t, timeout);
            && ready.pending != []
            && (!Parseable(ready.pending[0]) ==>
                  && ReadablePending(Reserve(ready, t))
                  && (ReadablePending(b) ==> FirstReadable(Reserve(ready, t).pending) < FirstReadable(b.pending)))
  {
    var q := AfterTick(b, ms, ids, t, timeout).pending;
    TickQueue(b, ms, ids, t, timeout);
    hide UuidShaped, ValidPolicy, AfterTick, IsTick, Stale, WorkAvailable;
    assert exists m :: m in q && Parseable(m) by {
      if i :| 0 <= i < |b.pending| && Parseable(b.pending[i]) {
        assert q[i] == b.pending[i];
      } else if m :| m in b.delayed && Parseable(m) && b.delayed[m] <= t {
        assert Parseable(PromotedCopy(m));
      } else {
        var id :| id in b.running && Parseable(b.running[id]) && Stale(b.running[id], t, timeout);
        assert Parseable(ReclaimedCopy(b.running[id]));
      }
    }
    var j :| 0 <= j < |q| && Parseable(q[j]);
    if !Parseable(q[0]) {
      assert q[1..][j - 1] == q[j];
      if ReadablePending(b) {
        var k := FirstReadable(b.pending);
        assert b.pending[k] == q[k] == q[1..][k - 1];
      }
    }
  }

  /** Fresh ids: at most one message was enqueued under an id. */
  lemma EnqueuedOnce(s: System, x: TaskMessage, y: TaskMessage)
    requires OneCopy(s) && x in s.enqueued && y in s.enqueued && x.id == y.id
    ensures x == y
  {
    var i :| 0 <= i < |s.enqueued| && s.enqueued[i] == x;
    assert Copies(s.b, x.id) + Stored(s.b, x.id) == Count(s.enqueued, x.id) <= 1;
    SumWithout(s.enqueued, i, IdWeight(x.id));
    CountMembers(Without(s.enqueued, i), x.id);
    forall j | 0 <= j < |s.enqueued| && j != i
      ensures s.enqueued[j] in Without(s.enqueued, i)
    {
      assert Without(s.enqueued, i)[if j < i then j else j - 1] == s.enqueued[j];
    }
  }

  /** When no live copy parses, every task that was enqueued with a valid message is done. */
  lemma DoneWhenNoneLeft(s: System, x: TaskMessage)
    requires Sound(s) && !ReadableLeft(s.b) && x in s.enqueued && Parseable(x)
    ensures x.id in s.b.status && (s.b.status[x.id] == Succeeded || s.b.status[x.id] == Dead)
  {
    hide UuidShaped;
    CopyFacts(s, x.id);
    forall m | m in s.b.pending || m in s.b.delayed || m in s.b.running.Values
      ensures m.id != x.id
    {
      assert IsCopy(s, m);
      var y :| y in s.enqueued && SameTask(y, m);
      if y.id == x.id {
        EnqueuedOnce(s, x, y);
      }
    }
  }

  /**
   Recovery: from the end of any lease-held history, whatever copies other workers
   still hold and never complete, repeating the polling step, and sleeping when
   nothing that parses is pending, terminates. No more executions complete than
   there was work left, whatever the handlers answer; only messages that do not
   parse stay live; and every task enqueued with a valid message ends succeeded or
   dead.
   */
  method Drain(s: System, timeout: nat, handler: (nat, TaskMessage) -> Outcome, elapsed: nat -> nat)
    returns (cur: System, ghost steps: seq<Step>)
    requires Sound(s)
    ensures Works(s, steps, cur) && cur.flight == s.flight && cur.enqueued == s.enqueued
    ensures !ReadableLeft(cur.b)
    ensures cur.completions <= s.completions + WorkLeft(s.b)
    ensures forall x :: x in cur.enqueued && Parseable(x) ==>
                          x.id in cur.b.status && (cur.b.status[x.id] == Succeeded || cur.b.status[x.id] == Dead)
  {
    cur, steps := s, [];
    WorksNot(s);
    var round := 0;
    ghost var more, ms, ids;
    while ReadableLeft(cur.b)
      invariant Works(s, steps, cur) && Sound(cur) && cur.flight == s.flight && cur.enqueued == s.enqueued
      invariant cur.completions + WorkLeft(cur.b) <= s.completions + WorkLeft(s.b)
      decreases WorkLeft(cur.b), if ReadablePending(cur.b) then 0 else 1, FirstReadable(cur.b.pending)
    {
      WorkNonNegative(cur.b);
      ghost var top := cur.b;
      var awake := cur;
      if !ReadablePending(cur.b) {
        assert FiledById(cur.b);
        awake, more := Sleep(cur, timeout);
        WorksTogether(s, steps, cur, more, awake);
        SoundWork(cur, more, awake);
        steps := steps + more;
      }
      hide Works, Sound, WorkLeft, UuidShaped, ValidPolicy;
      var ran;
      var current := round;
      ran, cur, more, ms, ids := RunOnce(awake, timeout, m => handler(current, m), elapsed(round));
      WorksTogether(s, steps, awake, more, cur);
      NearerToFront(top, ms, ids, awake.now, timeout);
      steps := steps + more;
      round := round + 1;
    }
    WorkNonNegative(cur.b);
    forall x | x in cur.enqueued && Parseable(x)
      ensures x.id in cur.b.status && (cur.b.status[x.id] == Succeeded || cur.b.status[x.id] == Dead)
    {
      DoneWhenNoneLeft(cur, x);
    }
  }
}
