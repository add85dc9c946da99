/**
 Runs in which leases are respected. The completion scripts do not check that
 their caller still owns the task, so single ownership is a property of runs:
 it holds when each completion finds in `running` exactly the copy it reserved.
 Completing within the visibility timeout is enough for that.
 */
module Leases {
  import opened Tasks
  import opened RetryDelays
  import opened Sums
  import opened Broker
  import opened Protocol
  import opened Safety

  predicate Holds(b: BrokerState, copy: TaskMessage) {
    copy.id in b.running && b.running[copy.id] == copy
  }

  predicate FreshId(s: System, id: string) {
    forall x :: x in s.enqueued ==> x.id != id
  }

  /** The step respects leases, and enqueues under a fresh id. */
  predicate LeaseHeld(s: System, e: Step) {
    && Enabled(s, e)
    && (e.EnqueueStep? ==> FreshId(s, e.task.id))
    && (e.CompleteStep? ==> Holds(s.b, s.flight[e.slot]))
  }

  predicate LeaseRun(s: System, steps: seq<Step>)
    decreases steps
  {
    steps == [] || (LeaseHeld(s, steps[0]) && LeaseRun(Next(s, steps[0]), steps[1..]))
  }

  lemma {:induction false} LeaseRunIsRun(s: System, steps: seq<Step>)
    requires LeaseRun(s, steps)
    ensures Run(s, steps)
    decreases steps
  {
    if steps == [] {
    } else {
      LeaseRunIsRun(Next(s, steps[0]), steps[1..]);
    }
  }

  lemma {:induction false} LeaseRunSplit(s: System, a: seq<Step>, b: seq<Step>)
    requires LeaseRun(s, a + b)
    ensures LeaseRun(s, a) && Run(s, a) && LeaseRun(Exec(s, a), b)
    decreases a
  {
    if a == [] {
      assert a + b == b;
    } else {
      assert (a + b)[0] == a[0] && (a + b)[1..] == a[1..] + b;
      LeaseRunSplit(Next(s, a[0]), a[1..], b);
    }
  }

  // ------------------------------------------------------------- one copy

  ghost function Stored(b: BrokerState, id: string): int {
    if id in b.results then 1 else 0
  }

  /** Each id has one copy, or none and a result; an id that was never enqueued has neither. */
  ghost predicate OneCopy(s: System) {
    && FiledById(s.b)
    && forall id :: Copies(s.b, id) + Stored(s.b, id) == Count(s.enqueued, id) <= 1
  }

  /** A task with at most one copy has it in one container only. */
  lemma Alone(b: BrokerState, id: string)
    requires Copies(b, id) <= 1
    ensures (exists m :: m in b.pending && m.id == id) ==>
              id !in b.running && (forall m :: m in b.delayed || m in b.dead ==> m.id != id)
    ensures (exists m :: m in b.delayed && m.id == id) ==>
              id !in b.running && (forall m :: m in b.pending || m in b.dead ==> m.id != id)
    ensures id in b.running ==> forall m :: m in b.pending || m in b.delayed || m in b.dead ==> m.id != id
    ensures (exists m :: m in b.dead && m.id == id) ==>
              id !in b.running && (forall m :: m in b.pending || m in b.delayed ==> m.id != id)
  {
    CountMembers(b.pending, id);
    CountSetMembers(b.delayed.Keys, id);
    CountMembers(b.dead, id);
  }

  lemma OneCopyComplete(s: System, slot: nat, outcome: Outcome, t: int)
    requires OneCopy(s) && slot < |s.flight| && Holds(s.b, s.flight[slot])
    ensures OneCopy(NextComplete(s, slot, outcome, t))
  {
    var copy := s.flight[slot];
    var d := Decide(copy, outcome);
    var s' := NextComplete(s, slot, outcome, t);
    assert Copies(s.b, copy.id) + Stored(s.b, copy.id) <= 1;
    Alone(s.b, copy.id);
    CopiesLocated(s.b, copy.id);
    forall id
      ensures Copies(s'.b, id) + Stored(s'.b, id) == Count(s'.enqueued, id) <= 1
    {
      assert Copies(s.b, id) + Stored(s.b, id) == Count(s.enqueued, id) <= 1;
      CopiesComplete(s.b, copy, d, t, id);
    }
  }

  /** The completions that cannot duplicate a task or complete it twice. */
  predicate SafeCompletion(b: BrokerState, copy: TaskMessage, d: Decision, t: int) {
    || copy.id in b.running
    || d.DoFail?
    || (d.DoAck? && copy.id in b.results)
    || (d.DoRetry? && RetriedCopy(copy, d.reason, t) in b.delayed)
  }

  lemma StoredComplete(b: BrokerState, copy: TaskMessage, d: Decision, t: int, id: string)
    ensures Stored(CompleteBroker(b, copy, d, t), id) == if d.DoAck? && copy.id == id then 1 else Stored(b, id)
  {
    hide RetriedCopy, DeadCopy;
  }

  lemma FiledComplete(b: BrokerState, copy: TaskMessage, d: Decision, t: int)
    requires FiledById(b)
    ensures FiledById(CompleteBroker(b, copy, d, t))
  {
    hide RetriedCopy, DeadCopy;
  }

  /** A completion leaves the other tasks' balance as it is. */
  lemma OthersBalanced(b: BrokerState, copy: TaskMessage, d: Decision, t: int, id: string)
    requires FiledById(b) && id != copy.id
    ensures var b' := CompleteBroker(b, copy, d, t);
            Copies(b', id) + Stored(b', id) == Copies(b, id) + Stored(b, id)
  {
    hide CompleteBroker, Copies, Stored, RetriedCopy;
    CopiesComplete(b, copy, d, t, id);
    StoredComplete(b, copy, d, t, id);
  }

  /** And the completed task's own balance exactly if it is safe. */
  lemma SafeIffBalanced(b: BrokerState, copy: TaskMessage, d: Decision, t: int)
    requires FiledById(b) && Copies(b, copy.id) + Stored(b, copy.id) == 1
    ensures var b' := CompleteBroker(b, copy, d, t);
            Copies(b', copy.id) + Stored(b', copy.id) == 1 <==> SafeCompletion(b, copy, d, t)
  {
    hide CompleteBroker, ComputeRetryDelayMs;
    CopiesComplete(b, copy, d, t, copy.id);
    StoredComplete(b, copy, d, t, copy.id);
    CopiesLocated(b, copy.id);
    Alone(b, copy.id);
    hide Copies;
  }

  /**
   Where single ownership can break: from a state with one copy of each task, a
   completion, by whatever worker and however late, keeps one copy of each if
   and only if the task is still running under some copy, or is only being
   failed, or repeats what has been done already.
   */
  lemma OneCopyIffSafe(s: System, slot: nat, outcome: Outcome, t: int)
    requires OneCopy(s) && slot < |s.flight| && !FreshId(s, s.flight[slot].id)
    ensures OneCopy(NextComplete(s, slot, outcome, t))
            <==> SafeCompletion(s.b, s.flight[slot], Decide(s.flight[slot], outcome), t)
  {
    hide CompleteBroker, SafeCompletion, Copies, Stored;
    var copy := s.flight[slot];
    var d := Decide(copy, outcome);
    var s' := NextComplete(s, slot, outcome, t);
    CountMembers(s.enqueued, copy.id);
    assert Copies(s.b, copy.id) + Stored(s.b, copy.id) == 1;
    SafeIffBalanced(s.b, copy, d, t);
    FiledComplete(s.b, copy, d, t);
    forall id
      ensures id != copy.id ==> Copies(s'.b, id) + Stored(s'.b, id) == Copies(s.b, id) + Stored(s.b, id)
    {
      if id != copy.id {
        OthersBalanced(s.b, copy, d, t, id);
      }
    }
    if SafeCompletion(s.b, copy, d, t) {
      forall id
        ensures Copies(s'.b, id) + Stored(s'.b, id) == Count(s'.enqueued, id) <= 1
      {
        assert Copies(s.b, id) + Stored(s.b, id) == Count(s.enqueued, id) <= 1;
      }
    }
  }

  lemma OneCopyStep(s: System, e: Step)
    requires OneCopy(s) && LeaseHeld(s, e)
    ensures OneCopy(Next(s, e))
  {
    if e.CompleteStep? {
      OneCopyComplete(s, e.slot, e.outcome, e.t);
      return;
    }
    var s' := Next(s, e);
    forall id
      ensures Copies(s'.b, id) + Stored(s'.b, id) == Count(s'.enqueued, id) <= 1
    {
      assert Copies(s.b, id) + Stored(s.b, id) == Count(s.enqueued, id) <= 1;
      CopiesChange(s, e, id);
      CopiesLocated(s.b, id);
      Alone(s.b, id);
      if e.EnqueueStep? {
        SumAppend(s.enqueued, e.task, IdWeight(id));
        CountMembers(s.enqueued, id);
      }
      if e.ReserveStep? && s.b.pending != [] {
        assert s.b.pending[0] in s.b.pending;
      }
    }
  }

  /** Enqueued ids are fresh; nothing is said of leases. */
  predicate FreshStep(s: System, e: Step) {
    Enabled(s, e) && (e.EnqueueStep? ==> FreshId(s, e.task.id))
  }

  predicate FreshRun(s: System, steps: seq<Step>)
    decreases steps
  {
    steps == [] || (FreshStep(s, steps[0]) && FreshRun(Next(s, steps[0]), steps[1..]))
  }

  /** Every completion is one that cannot duplicate a task or complete it twice. */
  predicate SafeStep(s: System, e: Step)
    requires Enabled(s, e)
  {
    e.CompleteStep? ==> SafeCompletion(s.b, s.flight[e.slot], Decide(s.flight[e.slot], e.outcome), e.t)
  }

  predicate AllSafe(s: System, steps: seq<Step>)
    requires FreshRun(s, steps)
    decreases steps
  {
    steps == [] || (SafeStep(s, steps[0]) && AllSafe(Next(s, steps[0]), steps[1..]))
  }

  /** Every state of the run has one copy of each task. */
  ghost predicate AlwaysOneCopy(s: System, steps: seq<Step>)
    requires FreshRun(s, steps)
    decreases steps
  {
    OneCopy(s) && (steps == [] || AlwaysOneCopy(Next(s, steps[0]), steps[1..]))
  }

  lemma OneCopyStepIff(s: System, e: Step)
    requires OneCopy(s) && AllTraced(s) && FreshStep(s, e)
    ensures OneCopy(Next(s, e)) <==> SafeStep(s, e)
  {
    hide OneCopy, SafeCompletion, NextComplete;
    if e.CompleteStep? {
      var copy := s.flight[e.slot];
      assert IsCopy(s, copy);
      assert Traced(s.enqueued, copy);
      OneCopyIffSafe(s, e.slot, e.outcome, e.t);
    } else {
      OneCopyStep(s, e);
    }
  }

  lemma NeverOneCopy(s: System, steps: seq<Step>)
    requires !OneCopy(s) && FreshRun(s, steps)
    ensures !AlwaysOneCopy(s, steps)
  {
  }

  lemma {:induction false} AlwaysOneCopyIff(s: System, steps: seq<Step>)
    requires OneCopy(s) && AllTraced(s) && FreshRun(s, steps)
    ensures AlwaysOneCopy(s, steps) <==> AllSafe(s, steps)
    decreases steps
  {
    hide OneCopy, AllTraced, SafeStep, Next;
    if steps == [] {
    } else {
      OneCopyStepIff(s, steps[0]);
      TracedStep(s, steps[0]);
      if SafeStep(s, steps[0]) {
        AlwaysOneCopyIff(Next(s, steps[0]), steps[1..]);
      } else {
        NeverOneCopy(Next(s, steps[0]), steps[1..]);
      }
    }
  }

  /**
   Single ownership over whole runs, with no assumption on leases or timing: in a
   run with fresh ids every state has one copy of each task if and only if every
   completion is safe.
   */
  lemma OneOwnerIffAllSafe(start: int, steps: seq<Step>)
    requires FreshRun(Init(start), steps)
    ensures AlwaysOneCopy(Init(start), steps) <==> AllSafe(Init(start), steps)
  {
    AlwaysOneCopyIff(Init(start), steps);
  }

  // --------------------------------------------- status and failure records

  /** The enqueued message carried no error of its own. */
  ghost predicate EnqueuedClean(s: System, id: string) {
    forall x :: x in s.enqueued && x.id == id ==> x.lastError == ""
  }

  function FailureReason(b: BrokerState, id: string): string {
    if id in b.failures then b.failures[id] else ""
  }

  /** The copy's own status is the recorded one, and its last error is the recorded reason. */
  ghost predicate Recorded(s: System, m: TaskMessage, status: TaskStatus) {
    && m.status == status
    && m.id in s.b.status && s.b.status[m.id] == status
    && (EnqueuedClean(s, m.id) ==> FailureReason(s.b, m.id) == m.lastError)
  }

  /** Every copy is recorded with the status of the container it is in. */
  ghost predicate Tidy(s: System) {
    && (forall m :: m in s.b.pending ==> Recorded(s, m, Pending))
    && (forall m :: m in s.b.delayed ==> (m.status == Pending || m.status == Retrying) && Recorded(s, m, m.status))
    && (forall id :: id in s.b.running ==> Recorded(s, s.b.running[id], Running))
    && (forall m :: m in s.b.dead ==> Recorded(s, m, Dead))
    && (forall id :: id in s.b.results ==> id in s.b.status && s.b.status[id] == Succeeded)
    && (forall id :: id in s.b.failures ==> exists x :: x in s.enqueued && x.id == id)
  }

  ghost predicate LeaseInv(s: System) {
    OneCopy(s) && Tidy(s)
  }

  /** Nothing recorded about any id but k changes. */
  ghost predicate TouchesOnly(s: System, s': System, k: string) {
    && (forall id :: id != k && id in s.b.status ==> id in s'.b.status && s'.b.status[id] == s.b.status[id])
    && (forall id :: id != k ==> FailureReason(s'.b, id) == FailureReason(s.b, id))
    && (forall x :: x in s.enqueued ==> x in s'.enqueued)
  }

  /** Whatever was not there before, under another id than k, is recorded as its place demands. */
  ghost predicate PlacesOnly(s: System, s': System, k: string) {
    && (forall m :: m in s'.b.pending ==> (m in s.b.pending && m.id != k) || Recorded(s', m, Pending))
    && (forall m :: m in s'.b.delayed ==>
          || (m in s.b.delayed && m.id != k)
          || ((m.status == Pending || m.status == Retrying) && Recorded(s', m, m.status)))
    && (forall id :: id in s'.b.running ==>
          || (id in s.b.running && id != k && s'.b.running[id] == s.b.running[id])
          || Recorded(s', s'.b.running[id], Running))
    && (forall m :: m in s'.b.dead ==> (m in s.b.dead && m.id != k) || Recorded(s', m, Dead))
    && (forall id :: id in s'.b.results ==>
          (id in s.b.results && id != k) || (id in s'.b.status && s'.b.status[id] == Succeeded))
    && (forall id :: id in s'.b.failures ==> id in s.b.failures || exists x :: x in s'.enqueued && x.id == id)
  }

  /** Copies of other tasks are still recorded. */
  lemma TidyOthers(s: System, s': System, k: string)
    requires Tidy(s) && FiledById(s.b) && TouchesOnly(s, s', k)
    ensures forall m :: m in s.b.pending && m.id != k ==> Recorded(s', m, Pending)
    ensures forall m :: m in s.b.delayed && m.id != k ==> Recorded(s', m, m.status)
    ensures forall id :: id in s.b.running && id != k ==> Recorded(s', s.b.running[id], Running)
    ensures forall m :: m in s.b.dead && m.id != k ==> Recorded(s', m, Dead)
    ensures forall id :: id in s.b.results && id != k ==> id in s'.b.status && s'.b.status[id] == Succeeded
  {
  }

  lemma StillEnqueued(s: System, s': System, k: string, x: TaskMessage)
    requires TouchesOnly(s, s', k) && x in s.enqueued
    ensures x in s'.enqueued
  {
  }

  /** A step that touches one task, and records what it places, keeps the records tidy. */
  lemma TidyFrom(s: System, s': System, k: string)
    requires Tidy(s) && FiledById(s.b) && TouchesOnly(s, s', k) && PlacesOnly(s, s', k)
    ensures Tidy(s')
  {
    TidyOthers(s, s', k);
    hide TouchesOnly;
    forall id | id in s'.b.failures
      ensures exists x :: x in s'.enqueued && x.id == id
    {
      if id in s.b.failures {
        var x :| x in s.enqueued && x.id == id;
        StillEnqueued(s, s', k, x);
      }
    }
  }

  /** What OneCopy says about a single id. */
  lemma CopyFacts(s: System, id: string)
    requires OneCopy(s)
    ensures FiledById(s.b)
    ensures 0 <= Copies(s.b, id) <= 1
    ensures Located(s.b, id) ==> id !in s.b.results
    ensures Located(s.b, id) || id in s.b.results <==> !FreshId(s, id)
  {
    assert Copies(s.b, id) + Stored(s.b, id) == Count(s.enqueued, id) <= 1;
    CopiesLocated(s.b, id);
    CountMembers(s.enqueued, id);
  }

  /** The task's only copy is the given delayed member. */
  lemma OnlyDelayed(s: System, m: TaskMessage)
    requires OneCopy(s) && m in s.b.delayed
    ensures FiledById(s.b)
    ensures m.id !in s.b.running && m.id !in s.b.results
    ensures forall x :: x in s.b.pending || x in s.b.dead || (x in s.b.delayed && x != m) ==> x.id != m.id
  {
    CopyFacts(s, m.id);
    Alone(s.b, m.id);
    CountMembers(s.b.pending, m.id);
    CountMembers(s.b.dead, m.id);
    SumSetRemove(s.b.delayed.Keys, m, IdWeight(m.id));
    CountSetMembers(s.b.delayed.Keys - {m}, m.id);
    forall x | x in s.b.delayed && x != m
      ensures x.id != m.id
    {
      assert x in s.b.delayed.Keys - {m};
    }
  }

  /** The task's only copy is at the given position of pending. */
  lemma OnlyPending(s: System, i: nat)
    requires OneCopy(s) && i < |s.b.pending|
    ensures FiledById(s.b)
    ensures var id := s.b.pending[i].id;
            && id !in s.b.running && id !in s.b.results
            && (forall x :: x in s.b.delayed || x in s.b.dead || x in Without(s.b.pending, i) ==> x.id != id)
  {
    var id := s.b.pending[i].id;
    assert s.b.pending[i] in s.b.pending;
    CopyFacts(s, id);
    Alone(s.b, id);
    CountSetMembers(s.b.delayed.Keys, id);
    CountMembers(s.b.dead, id);
    SumWithout(s.b.pending, i, IdWeight(id));
    CountMembers(Without(s.b.pending, i), id);
  }

  /** The task's only copy is at the given position of the dead-letter list. */
  lemma OnlyDead(s: System, i: nat)
    requires OneCopy(s) && i < |s.b.dead|
    ensures FiledById(s.b)
    ensures var id := s.b.dead[i].id;
            && id !in s.b.running && id !in s.b.results
            && (forall x :: x in s.b.pending || x in s.b.delayed || x in Without(s.b.dead, i) ==> x.id != id)
  {
    var id := s.b.dead[i].id;
    assert s.b.dead[i] in s.b.dead;
    CopyFacts(s, id);
    Alone(s.b, id);
    CountMembers(s.b.pending, id);
    CountSetMembers(s.b.delayed.Keys, id);
    SumWithout(s.b.dead, i, IdWeight(id));
    CountMembers(Without(s.b.dead, i), id);
  }

  /** The task's only copy is the running one. */
  lemma OnlyRunning(s: System, id: string)
    requires OneCopy(s) && id in s.b.running
    ensures FiledById(s.b)
    ensures id !in s.b.results && !FreshId(s, id)
    ensures forall x :: x in s.b.pending || x in s.b.delayed || x in s.b.dead ==> x.id != id
  {
    CopyFacts(s, id);
    Alone(s.b, id);
  }

  lemma WasRecorded(s: System, m: TaskMessage)
    requires Tidy(s)
    ensures m in s.b.pending ==> Recorded(s, m, Pending)
    ensures m in s.b.delayed ==> Recorded(s, m, m.status)
    ensures m.id in s.b.running && s.b.running[m.id] == m ==> Recorded(s, m, Running)
    ensures m in s.b.dead ==> Recorded(s, m, Dead)
  {
  }

  lemma NoFailureYet(s: System, id: string)
    requires Tidy(s) && FreshId(s, id)
    ensures id !in s.b.failures
  {
  }

  lemma TidyEnqueue(s: System, m: TaskMessage, t: int)
    requires LeaseInv(s) && FreshId(s, m.id)
    ensures Tidy(NextEnqueue(s, m, t))
  {
    hide Tidy, OneCopy;
    var s' := NextEnqueue(s, m, t);
    CopyFacts(s, m.id);
    NoFailureYet(s, m.id);
    assert s'.enqueued[|s.enqueued|] == m;
    assert Recorded(s', EnqueuedCopy(m, t), Pending);
    TidyFrom(s, s', m.id);
  }

  lemma TidyPromote(s: System, m: TaskMessage)
    requires LeaseInv(s) && m in s.b.delayed
    ensures Tidy(NextPromote(s, m))
  {
    hide Tidy, OneCopy;
    var s' := NextPromote(s, m);
    OnlyDelayed(s, m);
    WasRecorded(s, m);
    assert Recorded(s', PromotedCopy(m), Pending);
    TidyFrom(s, s', m.id);
  }

  lemma TidyReserve(s: System, t: int)
    requires LeaseInv(s)
    ensures Tidy(NextReserve(s, t))
  {
    hide Tidy, OneCopy, Parseable;
    if s.b.pending != [] {
      var m := s.b.pending[0];
      var s' := NextReserve(s, t);
      OnlyPending(s, 0);
      assert Without(s.b.pending, 0) == s.b.pending[1..];
      WasRecorded(s, m);
      assert Recorded(s', ReservedCopy(m, t), Running);
      TidyFrom(s, s', m.id);
    }
  }

  lemma TidyReclaim(s: System, id: string, t: int, timeout: int)
    requires LeaseInv(s)
    ensures Tidy(NextReclaim(s, id, t, timeout))
  {
    hide Tidy, OneCopy, Stale;
    if Reclaims(s.b, id, t, timeout) {
      var s' := NextReclaim(s, id, t, timeout);
      OnlyRunning(s, id);
      WasRecorded(s, s.b.running[id]);
      assert Recorded(s', ReclaimedCopy(s.b.running[id]), Pending);
      TidyFrom(s, s', id);
    }
  }

  lemma TidyAck(s: System, slot: nat, outcome: Outcome, t: int)
    requires LeaseInv(s) && slot < |s.flight| && Holds(s.b, s.flight[slot])
    requires Decide(s.flight[slot], outcome).DoAck?
    ensures Tidy(NextComplete(s, slot, outcome, t))
  {
    hide Tidy, OneCopy;
    var copy := s.flight[slot];
    OnlyRunning(s, copy.id);
    TidyFrom(s, NextComplete(s, slot, outcome, t), copy.id);
  }

  lemma TidyRetry(s: System, slot: nat, outcome: Outcome, t: int)
    requires LeaseInv(s) && slot < |s.flight| && Holds(s.b, s.flight[slot])
    requires Decide(s.flight[slot], outcome).DoRetry?
    ensures Tidy(NextComplete(s, slot, outcome, t))
  {
    hide Tidy, OneCopy, ComputeRetryDelayMs;
    var copy := s.flight[slot];
    var s' := NextComplete(s, slot, outcome, t);
    OnlyRunning(s, copy.id);
    assert Recorded(s', RetriedCopy(copy, Decide(copy, outcome).reason, t), Retrying);
    TidyFrom(s, s', copy.id);
  }

  lemma TidyFail(s: System, slot: nat, outcome: Outcome, t: int)
    requires LeaseInv(s) && slot < |s.flight| && Holds(s.b, s.flight[slot])
    requires Decide(s.flight[slot], outcome).DoFail?
    ensures Tidy(NextComplete(s, slot, outcome, t))
  {
    hide Tidy, OneCopy;
    var copy := s.flight[slot];
    var s' := NextComplete(s, slot, outcome, t);
    OnlyRunning(s, copy.id);
    assert Recorded(s', DeadCopy(copy, Decide(copy, outcome).reason), Dead);
    TidyFrom(s, s', copy.id);
  }

  lemma TidyRevive(s: System, id: string)
    requires LeaseInv(s)
    ensures Tidy(NextRevive(s, id))
  {
    var k := FirstWithId(s.b.dead, id);
    hide Tidy, OneCopy, FirstWithId;
    if k < |s.b.dead| {
      var s' := NextRevive(s, id);
      OnlyDead(s, k);
      WasRecorded(s, s.b.dead[k]);
      assert Recorded(s', RevivedCopy(s.b.dead[k]), Pending);
      TidyFrom(s, s', id);
    }
  }

  lemma LeaseStep(s: System, e: Step)
    requires LeaseInv(s) && LeaseHeld(s, e)
    ensures LeaseInv(Next(s, e))
  {
    OneCopyStep(s, e);
    match e {
      case EnqueueStep(m, t) => TidyEnqueue(s, m, t);
      case PromoteStep(m, _) => TidyPromote(s, m);
      case ReserveStep(t) => TidyReserve(s, t);
      case ReclaimStep(id, t, timeout) => TidyReclaim(s, id, t, timeout);
      case CompleteStep(slot, outcome, t) =>
        match Decide(s.flight[slot], outcome) {
          case DoAck => TidyAck(s, slot, outcome, t);
          case DoRetry(_) => TidyRetry(s, slot, outcome, t);
          case DoFail(_) => TidyFail(s, slot, outcome, t);
        }
      case ReviveStep(id) => TidyRevive(s, id);
      case _ =>
    }
  }

  /**
   In every lease-held run each enqueued id has exactly one copy in pending,
   delayed, running and dead together, or none and a stored result with status
   succeeded; the recorded status is the copy's own and its container's; and the
   recorded failure reason is the copy's last error.
   */
  lemma {:induction false} LeaseHeldRun(s: System, steps: seq<Step>)
    requires LeaseInv(s) && LeaseRun(s, steps)
    ensures Run(s, steps) && LeaseInv(Exec(s, steps))
    decreases steps
  {
    if steps == [] {
    } else {
      LeaseStep(s, steps[0]);
      LeaseHeldRun(Next(s, steps[0]), steps[1..]);
    }
  }

  /** In a lease-held run the recorded status tells where the task is. */
  lemma StatusTellsPlace(s: System, id: string)
    requires LeaseInv(s) && !FreshId(s, id)
    ensures id in s.b.status
    ensures s.b.status[id] == Succeeded <==> id in s.b.results
    ensures s.b.status[id] == Running <==> id in s.b.running
    ensures s.b.status[id] == Dead <==> exists m :: m in s.b.dead && m.id == id
    ensures s.b.status[id] == Pending || s.b.status[id] == Retrying
            <==> exists m :: (m in s.b.pending || m in s.b.delayed) && m.id == id
  {
    CopyFacts(s, id);
    Alone(s.b, id);
  }

  lemma InitLease(now: int)
    ensures LeaseInv(Init(now))
  {
  }

  // ------------------------------------------------- succeeded is terminal

  lemma NotPending(s: System, id: string)
    requires OneCopy(s) && id in s.b.results
    ensures s.b.pending != [] ==> s.b.pending[0].id != id
  {
    if s.b.pending != [] {
      OnlyPending(s, 0);
    }
  }

  lemma PoppedElsewhere(s: System, e: Step, id: string)
    requires Enabled(s, e) && (s.b.pending != [] ==> s.b.pending[0].id != id)
    ensures Count(Next(s, e).popped, id) == Count(s.popped, id)
  {
    if e.ReserveStep? && s.b.pending != [] {
      SumAppend(s.popped, s.b.pending[0], IdWeight(id));
    }
  }

  lemma SucceededIsDone(s: System, id: string)
    requires LeaseInv(s) && id in s.b.results
    ensures id in s.b.status && s.b.status[id] == Succeeded && !Located(s.b, id)
    ensures s.b.pending != [] ==> s.b.pending[0].id != id
  {
    CopyFacts(s, id);
    NotPending(s, id);
  }

  lemma ResultStays(s: System, e: Step, id: string)
    requires Enabled(s, e) && id in s.b.results
    ensures id in Next(s, e).b.results
  {
    hide Parseable, ComputeRetryDelayMs;
  }

  /** Once a task has a result it keeps it, has no copy, and is never reserved again. */
  lemma {:induction false} SucceededForever(s: System, steps: seq<Step>, id: string)
    requires LeaseInv(s) && LeaseRun(s, steps) && id in s.b.results
    ensures Run(s, steps)
    ensures var s' := Exec(s, steps);
            && id in s'.b.results && id in s'.b.status && s'.b.status[id] == Succeeded
            && !Located(s'.b, id) && Count(s'.popped, id) == Count(s.popped, id)
    decreases steps
  {
    hide LeaseInv, Next, Located;
    SucceededIsDone(s, id);
    if steps == [] {
    } else {
      LeaseStep(s, steps[0]);
      ResultStays(s, steps[0], id);
      PoppedElsewhere(s, steps[0], id);
      SucceededForever(Next(s, steps[0]), steps[1..], id);
    }
  }

  // ----------------------------------------------------- no early execution

  /**
   In a lease-held run a task waiting in the delayed set is not reserved while
   the clock is below its score.
   */
  lemma {:induction false} NotReservedEarly(s: System, steps: seq<Step>, m: TaskMessage)
    requires LeaseInv(s) && ScoresAreRunTimes(s) && LeaseRun(s, steps) && Run(s, steps)
    requires m in s.b.delayed && Exec(s, steps).now < s.b.delayed[m]
    ensures Count(Exec(s, steps).popped, m.id) == Count(s.popped, m.id)
    decreases steps
  {
    if steps == [] {
    } else {
      var s' := Next(s, steps[0]);
      LeaseStep(s, steps[0]);
      ScoreStep(s, steps[0]);
      ClockMonotone(s', steps[1..]);
      DelayedStep(s, steps[0], m);
      OnlyDelayed(s, m);
      assert s.b.pending != [] ==> s.b.pending[0] in s.b.pending;
      PoppedElsewhere(s, steps[0], m.id);
      NotReservedEarly(s', steps[1..], m);
    }
  }

  /** A step that puts a task off: which task, and until when. */
  function DueTime(s: System, e: Step): Option<(string, int)>
    requires Enabled(s, e)
  {
    match e
    case EnqueueStep(m, t) =>
      if m.runAtMs.Some? && m.runAtMs.value > t then Some((m.id, m.runAtMs.value)) else None
    case CompleteStep(slot, Failure(_), t) =>
      var copy := s.flight[slot];
      if copy.retryCount >= copy.policy.maxRetries then None
      else Some((copy.id, t + ComputeRetryDelayMs(copy.policy, copy.retryCount + 1)))
    case _ => None
  }

  /** The step has put a member with that due time into the delayed set. */
  lemma PutOff(s: System, e: Step) returns (m: TaskMessage)
    requires Enabled(s, e) && DueTime(s, e).Some?
    ensures m.id == DueTime(s, e).value.0
    ensures m in Next(s, e).b.delayed && Next(s, e).b.delayed[m] == DueTime(s, e).value.1
  {
    hide ComputeRetryDelayMs;
    if e.EnqueueStep? {
      m := EnqueuedCopy(e.task, e.t);
    } else {
      m := RetriedCopy(s.flight[e.slot], e.outcome.error, e.t);
    }
  }

  /**
   No early execution: after a task is enqueued for a run time later than the clock
   reading, or fails with a retry left at reading t, for the k-th time, it is not
   reserved before that run time, or before t + ComputeRetryDelayMs(policy, k), in
   any lease-held run.
   */
  lemma NoEarlyExecution(start: int, before: seq<Step>, e: Step, after: seq<Step>)
    requires LeaseRun(Init(start), before + [e] + after)
    ensures Run(Init(start), before + [e] + after) && Run(Init(start), before + [e]) && Run(Init(start), before)
    ensures Enabled(Exec(Init(start), before), e)
    ensures var s := Exec(Init(start), before);
            var mid := Exec(Init(start), before + [e]);
            var end := Exec(Init(start), before + [e] + after);
            var due := DueTime(s, e);
            due.Some? && end.now < due.value.1 ==> Count(end.popped, due.value.0) == Count(mid.popped, due.value.0)
  {
    hide DueTime, Next;
    var s0 := Init(start);
    InitLease(start);
    LeaseRunIsRun(s0, before + [e] + after);
    RunSplit(s0, before + [e], after);
    RunSplit(s0, before, [e]);
    LeaseRunSplit(s0, before + [e], after);
    LeaseHeldRun(s0, before + [e]);
    DelaysInEveryRun(s0, before + [e]);
    var s, mid := Exec(s0, before), Exec(s0, before + [e]);
    RunOne(s, e);
    if DueTime(s, e).Some? && Exec(mid, after).now < DueTime(s, e).value.1 {
      var m := PutOff(s, e);
      NotReservedEarly(mid, after, m);
    }
  }

  // ----------------------------------------------------------- conservation

  ghost function Size(b: BrokerState): int {
    |b.pending| + |b.delayed| + |b.running| + |b.dead|
  }

  /** Every task enqueued is held or completed, and every dead letter is held or was retried. */
  ghost predicate Balanced(s: System) {
    && |s.enqueued| == Size(s.b) + s.acks
    && s.deadLetters == |s.b.dead| + |s.revived|
  }

  lemma DropKey<K, V>(m: map<K, V>, k: K)
    requires k in m
    ensures |m - {k}| == |m| - 1
  {
    assert (m - {k}).Keys == m.Keys - {k};
  }

  lemma AddKey<K, V>(m: map<K, V>, k: K, v: V)
    requires k !in m
    ensures |m[k := v]| == |m| + 1
  {
    assert m[k := v].Keys == m.Keys + {k};
  }

  lemma BalancedEnqueue(s: System, m: TaskMessage, t: int)
    requires OneCopy(s) && Balanced(s) && FreshId(s, m.id)
    ensures Balanced(NextEnqueue(s, m, t))
  {
    CopyFacts(s, m.id);
    hide OneCopy;
    if EnqueuesDelayed(m, t) {
      assert EnqueuedCopy(m, t) !in s.b.delayed;
      AddKey(s.b.delayed, EnqueuedCopy(m, t), m.runAtMs.value);
    }
  }

  lemma BalancedReserve(s: System, t: int)
    requires OneCopy(s) && Balanced(s)
    ensures Balanced(NextReserve(s, t))
  {
    hide Parseable;
    if s.b.pending != [] {
      OnlyPending(s, 0);
      hide OneCopy;
      AddKey(s.b.running, s.b.pending[0].id, ReservedCopy(s.b.pending[0], t));
    }
  }

  lemma BalancedReclaim(s: System, id: string, t: int, timeout: int)
    requires Balanced(s)
    ensures Balanced(NextReclaim(s, id, t, timeout))
  {
    if Reclaims(s.b, id, t, timeout) {
      DropKey(s.b.running, id);
    }
  }

  lemma BalancedComplete(s: System, slot: nat, outcome: Outcome, t: int)
    requires OneCopy(s) && Balanced(s) && slot < |s.flight| && Holds(s.b, s.flight[slot])
    ensures Balanced(NextComplete(s, slot, outcome, t))
  {
    var copy := s.flight[slot];
    var d := Decide(copy, outcome);
    OnlyRunning(s, copy.id);
    hide OneCopy;
    DropKey(s.b.running, copy.id);
    if d.DoRetry? {
      var r := RetriedCopy(copy, d.reason, t);
      AddKey(s.b.delayed, r, r.runAtMs.value);
    }
  }

  lemma BalancedStep(s: System, e: Step)
    requires LeaseInv(s) && Balanced(s) && LeaseHeld(s, e)
    ensures Balanced(Next(s, e))
  {
    hide OneCopy, Tidy, NextEnqueue, NextReserve, NextReclaim, NextComplete;
    match e {
      case EnqueueStep(m, t) => BalancedEnqueue(s, m, t);
      case PromoteStep(m, _) => DropKey(s.b.delayed, m);
      case ReserveStep(t) => BalancedReserve(s, t);
      case ReclaimStep(id, t, timeout) => BalancedReclaim(s, id, t, timeout);
      case CompleteStep(slot, outcome, t) => BalancedComplete(s, slot, outcome, t);
      case _ =>
    }
  }

  /**
   Conservation: in every lease-held run the enqueued total is pending + delayed
   + running + dead + completed, and the dead-lettered total is the dead-letter
   list plus the successful dead-letter retries.
   */
  lemma {:induction false} TasksAreConserved(s: System, steps: seq<Step>)
    requires LeaseInv(s) && Balanced(s) && LeaseRun(s, steps)
    ensures Run(s, steps) && Balanced(Exec(s, steps))
    decreases steps
  {
    if steps == [] {
    } else {
      LeaseStep(s, steps[0]);
      BalancedStep(s, steps[0]);
      TasksAreConserved(Next(s, steps[0]), steps[1..]);
    }
  }

  // ------------------------------------------- timing implies exclusivity

  /** The copy is still within the visibility timeout. */
  predicate InTime(s: System, copy: TaskMessage, timeout: int) {
    copy.reservedAtMs.Some? && s.now <= copy.reservedAtMs.value + timeout
  }

  /** One timeout for all reclaim passes; completions within it; fresh ids. Nothing is said of leases. */
  predicate Timely(s: System, e: Step, timeout: int) {
    && Enabled(s, e)
    && (e.EnqueueStep? ==> FreshId(s, e.task.id))
    && (e.ReclaimStep? ==> e.timeout == timeout)
    && (e.CompleteStep? ==> InTime(s, s.flight[e.slot], timeout))
  }

  predicate TimelyRun(s: System, steps: seq<Step>, timeout: int)
    decreases steps
  {
    steps == [] || (Timely(s, steps[0], timeout) && TimelyRun(Next(s, steps[0]), steps[1..], timeout))
  }

  /** Copies in time still hold their lease, and no two of them are of one task. */
  ghost predicate LeasesInTime(s: System, timeout: int) {
    && (forall i :: 0 <= i < |s.flight| && InTime(s, s.flight[i], timeout) ==> Holds(s.b, s.flight[i]))
    && (forall i, j :: 0 <= i < j < |s.flight| && InTime(s, s.flight[i], timeout) && InTime(s, s.flight[j], timeout) ==>
          s.flight[i].id != s.flight[j].id)
  }

  lemma InTimeAfterRemoval(s: System, s': System, slot: nat, timeout: int)
    requires LeasesInTime(s, timeout) && slot < |s.flight| && s'.flight == Without(s.flight, slot) && s'.now == s.now
    requires forall i :: 0 <= i < |s.flight| && i != slot && InTime(s, s.flight[i], timeout) ==>
                           Holds(s'.b, s.flight[i])
    ensures LeasesInTime(s', timeout)
  {
    forall i | 0 <= i < |s'.flight|
      ensures s'.flight[i] == s.flight[if i < slot then i else i + 1]
    {
    }
  }

  lemma InTimeReserve(s: System, t: int, timeout: int)
    requires OneCopy(s) && LeasesInTime(s, timeout)
    ensures LeasesInTime(NextReserve(s, t), timeout)
  {
    if s.b.pending != [] {
      OnlyPending(s, 0);
    }
  }

  lemma InTimeComplete(s: System, slot: nat, outcome: Outcome, t: int, timeout: int)
    requires LeasesInTime(s, timeout) && slot < |s.flight| && InTime(s, s.flight[slot], timeout)
    ensures LeasesInTime(NextComplete(s, slot, outcome, t), timeout)
  {
    InTimeAfterRemoval(s, NextComplete(s, slot, outcome, t), slot, timeout);
  }

  lemma TimelyStep(s: System, e: Step, timeout: int)
    requires OneCopy(s) && LeasesInTime(s, timeout) && Timely(s, e, timeout)
    ensures LeaseHeld(s, e) && LeasesInTime(Next(s, e), timeout)
  {
    match e {
      case ReserveStep(t) => InTimeReserve(s, t, timeout);
      case CompleteStep(slot, outcome, t) => InTimeComplete(s, slot, outcome, t, timeout);
      case CrashStep(slot) => InTimeAfterRemoval(s, Next(s, e), slot, timeout);
      case _ =>
    }
  }

  /**
   Timing implies exclusivity: if every completion comes no later than the
   visibility timeout after its reservation, then, whatever reclaim passes other
   workers make, every completion finds its own copy in running.
   */
  lemma {:induction false} TimelyRunHoldsLeases(s: System, steps: seq<Step>, timeout: int)
    requires LeaseInv(s) && LeasesInTime(s, timeout) && TimelyRun(s, steps, timeout)
    ensures LeaseRun(s, steps)
    decreases steps
  {
    if steps == [] {
    } else {
      TimelyStep(s, steps[0], timeout);
      LeaseStep(s, steps[0]);
      TimelyRunHoldsLeases(Next(s, steps[0]), steps[1..], timeout);
    }
  }

  /** A timely run from the empty queue therefore has everything a lease-held run has. */
  lemma TimelyRunsAreExclusive(start: int, steps: seq<Step>, timeout: int)
    requires TimelyRun(Init(start), steps, timeout)
    ensures LeaseRun(Init(start), steps) && Run(Init(start), steps)
    ensures LeaseInv(Exec(Init(start), steps)) && Balanced(Exec(Init(start), steps))
  {
    InitLease(start);
    TimelyRunHoldsLeases(Init(start), steps, timeout);
    LeaseHeldRun(Init(start), steps);
    TasksAreConserved(Init(start), steps);
  }

  /** How long until a task may run. */
  function Wait(start: int, m: TaskMessage): nat {
    if EnqueuesDelayed(m, start) then m.runAtMs.value - start else 0
  }

  /** Enqueue and reserve a task at t, and reclaim it when its lease has run out. */
  function ExpiringLease(t: int, m: TaskMessage, timeout: nat): seq<Step> {
    [EnqueueStep(m, t), ReserveStep(t), Tick(timeout + 1), ReclaimStep(m.id, t + timeout + 1, timeout)]
  }

  /** The task is pending again, and its first copy still in flight. */
  predicate Expired(s: System, t: int, m: TaskMessage, timeout: nat) {
    var copy := ReservedCopy(EnqueuedCopy(m, t), t);
    && s.flight == [copy] && s.now == t + timeout + 1
    && s.b == EMPTY.(pending := [ReclaimedCopy(copy)], status := map[m.id := Pending])
  }

  lemma LeaseExpires(t: int, m: TaskMessage, timeout: nat)
    requires Parseable(m) && !EnqueuesDelayed(m, t)
    ensures Run(Init(t), ExpiringLease(t, m, timeout))
    ensures Expired(Exec(Init(t), ExpiringLease(t, m, timeout)), t, m, timeout)
  {
    hide UuidShaped, ValidPolicy;
    var steps := ExpiringLease(t, m, timeout);
    var s1 := Next(Init(t), steps[0]);
    var s2 := Next(s1, steps[1]);
    var s3 := Next(s2, steps[2]);
    var s4 := Next(s3, steps[3]);
    assert Expired(s4, t, m, timeout);
    hide Next, Expired;
    assert steps[1..][1..] == steps[2..] && steps[2..][1..] == [steps[3]];
    RunOne(s3, steps[3]);
    assert Run(s2, steps[2..]) && Exec(s2, steps[2..]) == s4;
    assert Run(s1, steps[1..]) && Exec(s1, steps[1..]) == s4;
  }

  /** A run, for any task, in which a reservation outlives its lease. */
  function OutlivedLease(start: int, m: TaskMessage, timeout: nat): seq<Step> {
    [Tick(Wait(start, m))] + ExpiringLease(start + Wait(start, m), m, timeout)
  }

  lemma LeaseOutlived(start: int, m: TaskMessage, timeout: nat)
    requires Parseable(m)
    ensures Run(Init(start), OutlivedLease(start, m, timeout))
    ensures Expired(Exec(Init(start), OutlivedLease(start, m, timeout)), start + Wait(start, m), m, timeout)
  {
    var t := start + Wait(start, m);
    hide Expired, ExpiringLease, Parseable;
    RunOne(Init(start), Tick(Wait(start, m)));
    LeaseExpires(t, m, timeout);
    RunJoin(Init(start), [Tick(Wait(start, m))], ExpiringLease(t, m, timeout));
  }

  /**
   Without the timing assumption the claim is false: a worker that retries a task
   after its lease was reclaimed, with whatever error and clock reading, leaves
   two copies of it behind.
   */
  lemma LateRetryDuplicates(start: int, m: TaskMessage, timeout: nat, error: string, t: int)
    requires Parseable(m) && ShouldRetry(m) && t <= start + Wait(start, m) + timeout + 1
    ensures var steps := OutlivedLease(start, m, timeout) + [CompleteStep(0, Failure(error), t)];
            Run(Init(start), steps) && Copies(Exec(Init(start), steps).b, m.id) == 2
  {
    var e := CompleteStep(0, Failure(error), t);
    LeaseOutlived(start, m, timeout);
    var s := Exec(Init(start), OutlivedLease(start, m, timeout));
    hide Parseable, OutlivedLease, RetriedCopy, Wait;
    RunOne(s, e);
    RunJoin(Init(start), OutlivedLease(start, m, timeout), [e]);
    hide Run, Exec;
    assert Next(s, e).b == CompleteBroker(s.b, s.flight[0], DoRetry(error), t);
    CopiesComplete(s.b, s.flight[0], DoRetry(error), t, m.id);
    SumSingle(s.b.pending[0], IdWeight(m.id));
  }

  /** The other way: a late ack stores a result for a task that is pending, and will run again. */
  lemma LateAckLeavesTaskPending(start: int, m: TaskMessage, timeout: nat, t: int)
    requires Parseable(m) && t <= start + Wait(start, m) + timeout + 1
    ensures var steps := OutlivedLease(start, m, timeout) + [CompleteStep(0, Success, t)];
            && Run(Init(start), steps)
            && var b := Exec(Init(start), steps).b;
               m.id in b.results && b.status == map[m.id := Succeeded] && |b.pending| == 1 && b.pending[0].id == m.id
  {
    var e := CompleteStep(0, Success, t);
    LeaseOutlived(start, m, timeout);
    var s := Exec(Init(start), OutlivedLease(start, m, timeout));
    hide Parseable, OutlivedLease, Wait;
    RunOne(s, e);
    RunJoin(Init(start), OutlivedLease(start, m, timeout), [e]);
  }
}
