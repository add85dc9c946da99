/**
 What holds in every run of the protocol, whatever the interleaving, including
 crashed workers and completions by workers whose lease has been reclaimed.
 */
module Safety {
  import opened Tasks
  import opened RetryDelays
  import opened Sums
  import opened Broker
  import opened Protocol

  // -------------------------------------------------------------- provenance

  /** The part of a message that no step may change. */
  predicate SameTask(a: TaskMessage, b: TaskMessage) {
    && a.id == b.id
    && a.name == b.name
    && a.payload == b.payload
    && a.policy == b.policy
    && a.createdAtMs == b.createdAtMs
  }

  predicate CountInRange(m: TaskMessage) {
    0 <= m.retryCount <= m.policy.maxRetries
  }

  /** The copy stems from an enqueued message and has not left its policy's range. */
  ghost predicate Traced(enqueued: seq<TaskMessage>, copy: TaskMessage) {
    exists x :: x in enqueued && SameTask(x, copy) && (CountInRange(x) ==> CountInRange(copy))
  }

  /** Everything that is a copy of some task, in the broker or in a worker's hands. */
  ghost predicate IsCopy(s: System, m: TaskMessage) {
    || m in s.b.pending
    || m in s.b.delayed
    || (exists id :: id in s.b.running && s.b.running[id] == m)
    || m in s.b.dead
    || m in s.flight
  }

  /** The step makes m out of o. */
  ghost predicate Makes(s: System, e: Step, o: TaskMessage, m: TaskMessage)
    requires Enabled(s, e)
  {
    match e
    case EnqueueStep(task, t) => o == task && m == EnqueuedCopy(o, t)
    case PromoteStep(_, _) => m == PromotedCopy(o)
    case ReserveStep(t) => m == ReservedCopy(o, t)
    case ReclaimStep(_, _, _) => m == ReclaimedCopy(o)
    case CompleteStep(slot, outcome, t) =>
      (match Decide(s.flight[slot], outcome)
       case DoAck => false
       case DoRetry(reason) => ShouldRetry(o) && m == RetriedCopy(o, reason, t)
       case DoFail(reason) => m == DeadCopy(o, reason))
    case ReviveStep(_) => m == RevivedCopy(o)
    case _ => false
  }

  lemma CompletionOrigin(s: System, e: Step, m: TaskMessage) returns (o: TaskMessage)
    requires e.CompleteStep? && Enabled(s, e) && IsCopy(Next(s, e), m) && !IsCopy(s, m)
    ensures Makes(s, e, o, m) && IsCopy(s, o)
  {
    hide Parseable, ComputeRetryDelayMs;
    var copy := s.flight[e.slot];
    assert IsCopy(s, copy);
    if Decide(copy, e.outcome).DoFail? {
      o := s.b.running[copy.id];
    } else {
      o := copy;
    }
  }

  /** A copy found after a step was there before, or the step made it out of an older one. */
  lemma CopyOrigin(s: System, e: Step, m: TaskMessage) returns (o: TaskMessage)
    requires Enabled(s, e) && IsCopy(Next(s, e), m)
    ensures IsCopy(s, m) || Makes(s, e, o, m)
    ensures IsCopy(s, m) || e.EnqueueStep? || IsCopy(s, o)
  {
    hide Parseable, ComputeRetryDelayMs, NextComplete;
    o := m;
    if IsCopy(s, m) {
      return;
    }
    match e {
      case EnqueueStep(task, _) => o := task;
      case PromoteStep(member, _) => o := member;
      case ReserveStep(_) => o := s.b.pending[0];
      case ReclaimStep(id, _, _) => o := s.b.running[id];
      case CompleteStep(_, _, _) => o := CompletionOrigin(s, e, m);
      case ReviveStep(id) => o := s.b.dead[FirstWithId(s.b.dead, id)];
      case _ =>
    }
  }

  /** Running entries are filed under their own id, and carry the time of their lease. */
  ghost predicate FiledById(b: BrokerState) {
    forall id :: id in b.running ==> b.running[id].id == id && b.running[id].reservedAtMs.Some?
  }

  ghost predicate AllTraced(s: System) {
    && FiledById(s.b)
    && forall m :: IsCopy(s, m) ==> Traced(s.enqueued, m)
  }

  lemma FiledStep(s: System, e: Step)
    requires FiledById(s.b) && Enabled(s, e)
    ensures FiledById(Next(s, e).b)
  {
    hide Parseable, ComputeRetryDelayMs, FirstWithId;
  }

  lemma MadeKeepsTask(s: System, e: Step, o: TaskMessage, m: TaskMessage)
    requires Enabled(s, e) && Makes(s, e, o, m)
    ensures SameTask(o, m) && (CountInRange(o) ==> CountInRange(m)) && (e.EnqueueStep? ==> o == e.task)
  {
    hide ComputeRetryDelayMs;
  }

  lemma EnqueuedKept(s: System, e: Step)
    requires Enabled(s, e)
    ensures forall x :: x in s.enqueued ==> x in Next(s, e).enqueued
    ensures e.EnqueueStep? ==> e.task in Next(s, e).enqueued
  {
    hide Parseable, ComputeRetryDelayMs;
  }

  lemma TracedCopy(s: System, e: Step, m: TaskMessage)
    requires AllTraced(s) && Enabled(s, e) && IsCopy(Next(s, e), m)
    ensures Traced(Next(s, e).enqueued, m)
  {
    hide Next, Makes, IsCopy;
    EnqueuedKept(s, e);
    var o := CopyOrigin(s, e, m);
    if !IsCopy(s, m) {
      MadeKeepsTask(s, e, o, m);
    }
  }

  lemma TracedStep(s: System, e: Step)
    requires AllTraced(s) && Enabled(s, e)
    ensures AllTraced(Next(s, e))
  {
    hide Next, IsCopy, Traced;
    FiledStep(s, e);
    forall m | IsCopy(Next(s, e), m)
      ensures Traced(Next(s, e).enqueued, m)
    {
      TracedCopy(s, e, m);
    }
  }

  /**
   In every run each surviving copy keeps the name, payload, retry policy and
   creation time it was enqueued with, and its retry count stays within the
   policy if it was enqueued so.
   */
  lemma {:induction false} EveryCopyIsTraced(s: System, steps: seq<Step>)
    requires AllTraced(s) && Run(s, steps)
    ensures AllTraced(Exec(s, steps))
    decreases steps
  {
    if steps == [] {
    } else {
      TracedStep(s, steps[0]);
      EveryCopyIsTraced(Next(s, steps[0]), steps[1..]);
    }
  }

  // ------------------------------------------------------------ no lost task

  ghost predicate Accounted(s: System, id: string) {
    Located(s.b, id) || id in s.b.results
  }

  ghost predicate NothingLost(s: System) {
    && FiledById(s.b)
    && forall x :: x in s.enqueued ==> Accounted(s, x.id)
  }

  /** How an atomic step changes the number of copies of one task. */
  lemma CopiesChange(s: System, e: Step, id: string)
    requires Enabled(s, e)
    ensures e.Tick? || e.CrashStep? ==> Next(s, e).b == s.b
    ensures e.EnqueueStep? ==>
              Copies(Next(s, e).b, id) == Copies(s.b, id)
                + if e.task.id != id then 0
                  else if EnqueuesDelayed(e.task, e.t) && EnqueuedCopy(e.task, e.t) in s.b.delayed then 0 else 1
    ensures e.PromoteStep? || e.ReviveStep? ==> Copies(Next(s, e).b, id) == Copies(s.b, id)
    ensures e.ReserveStep? && s.b.pending != [] ==>
              Copies(Next(s, e).b, id) == Copies(s.b, id)
                - if s.b.pending[0].id == id && id in s.b.running then 1 else 0
    ensures e.ReclaimStep? && FiledById(s.b) ==> Copies(Next(s, e).b, id) == Copies(s.b, id)
  {
    hide Parseable, ComputeRetryDelayMs, Sum, SumSet;
    var w := IdWeight(id);
    match e {
      case EnqueueStep(m, t) =>
        SumAppend(s.b.pending, EnqueuedCopy(m, t), w);
        if EnqueuesDelayed(m, t) {
          InsertKey(s.b.delayed, EnqueuedCopy(m, t), m.runAtMs.value, w);
        }
      case PromoteStep(m, _) =>
        RemoveKey(s.b.delayed, m, w);
        SumAppend(s.b.pending, PromotedCopy(m), w);
      case ReserveStep(_) =>
        if s.b.pending != [] {
          SumFirst(s.b.pending, w);
        }
      case ReclaimStep(k, t, timeout) =>
        if Reclaims(s.b, k, t, timeout) {
          SumAppend(s.b.pending, ReclaimedCopy(s.b.running[k]), w);
        }
      case ReviveStep(k) =>
        if Revives(s.b, k) {
          SumWithout(s.b.dead, FirstWithId(s.b.dead, k), w);
          SumAppend(s.b.pending, RevivedCopy(s.b.dead[FirstWithId(s.b.dead, k)]), w);
        }
      case _ =>
    }
  }

  /** The same for the three completions, given the copy that completes. */
  lemma CopiesComplete(b: BrokerState, copy: TaskMessage, d: Decision, t: int, id: string)
    requires FiledById(b)
    ensures var held := if copy.id == id && id in b.running then 1 else 0;
            var gained := match d
                          case DoAck => 0
                          case DoRetry(reason) =>
                            if copy.id == id && RetriedCopy(copy, reason, t) !in b.delayed then 1 else 0
                          case DoFail(_) => held;
            Copies(CompleteBroker(b, copy, d, t), id) == Copies(b, id) - held + gained
  {
    var w := IdWeight(id);
    match d {
      case DoAck =>
      case DoRetry(reason) =>
        var r := RetriedCopy(copy, reason, t);
        InsertKey(b.delayed, r, r.runAtMs.value, w);
      case DoFail(reason) =>
        if copy.id in b.running {
          SumPrepend(DeadCopy(b.running[copy.id], reason), b.dead, w);
        }
    }
  }

  lemma NothingLostStep(s: System, e: Step)
    requires NothingLost(s) && Enabled(s, e)
    ensures NothingLost(Next(s, e))
  {
    var s' := Next(s, e);
    forall x | x in s'.enqueued
      ensures Accounted(s', x.id)
    {
      var id := x.id;
      CopiesLocated(s.b, id);
      CopiesLocated(s'.b, id);
      if e.CompleteStep? {
        var copy := s.flight[e.slot];
        var d := Decide(copy, e.outcome);
        CopiesComplete(s.b, copy, d, e.t, id);
        if d.DoRetry? {
          assert RetriedCopy(copy, d.reason, e.t) in s'.b.delayed;
        }
      } else {
        CopiesChange(s, e, id);
        if e.EnqueueStep? && EnqueuesDelayed(e.task, e.t) && e.task.id == id {
          assert EnqueuedCopy(e.task, e.t) in s'.b.delayed;
        }
      }
    }
  }

  /**
   No task is ever lost: in every run each enqueued id has a copy in pending,
   delayed, running or dead, or a stored result.
   */
  lemma {:induction false} NoTaskIsLost(s: System, steps: seq<Step>)
    requires NothingLost(s) && Run(s, steps)
    ensures NothingLost(Exec(s, steps))
    decreases steps
  {
    if steps == [] {
    } else {
      NothingLostStep(s, steps[0]);
      NoTaskIsLost(Next(s, steps[0]), steps[1..]);
    }
  }

  // ------------------------------------------------------- unreadable tasks

  /** Workers hold only messages that parse. */
  ghost predicate FlightReadable(s: System) {
    forall m :: m in s.flight ==> Parseable(m)
  }

  lemma ReadableStep(s: System, e: Step)
    requires FlightReadable(s) && Enabled(s, e)
    ensures FlightReadable(Next(s, e))
  {
    hide UuidShaped, ComputeRetryDelayMs;
  }

  /** In every run a worker is handed only messages that parse. */
  lemma {:induction false} OnlyReadableAreHandedOut(s: System, steps: seq<Step>)
    requires FlightReadable(s) && Run(s, steps)
    ensures FlightReadable(Exec(s, steps))
    decreases steps
  {
    if steps == [] {
    } else {
      ReadableStep(s, steps[0]);
      OnlyReadableAreHandedOut(Next(s, steps[0]), steps[1..]);
    }
  }

  /** Every message enqueued under this id is one that does not parse. */
  ghost predicate EnqueuedUnreadable(s: System, id: string) {
    forall x :: x in s.enqueued && x.id == id ==> !Parseable(x)
  }

  lemma {:induction false} EnqueuedGrows(s: System, steps: seq<Step>)
    requires Run(s, steps)
    ensures forall x :: x in s.enqueued ==> x in Exec(s, steps).enqueued
    decreases steps
  {
    if steps == [] {
    } else {
      EnqueuedGrows(Next(s, steps[0]), steps[1..]);
    }
  }

  /** Nobody has completed the task, in any way. */
  ghost predicate Uncompleted(s: System, id: string) {
    && id !in s.b.results
    && id !in s.b.failures
    && (forall m :: m in s.b.dead ==> m.id != id)
  }

  lemma UnreadableNotInFlight(s: System, id: string)
    requires AllTraced(s) && FlightReadable(s) && EnqueuedUnreadable(s, id)
    ensures forall m :: m in s.flight ==> m.id != id
  {
    hide UuidShaped;
    forall m | m in s.flight
      ensures m.id != id
    {
      assert IsCopy(s, m);
      var x :| x in s.enqueued && SameTask(x, m);
    }
  }

  lemma UncompletedStep(s: System, e: Step, id: string)
    requires Enabled(s, e) && Uncompleted(s, id) && FiledById(s.b)
    requires forall m :: m in s.flight ==> m.id != id
    ensures Uncompleted(Next(s, e), id)
  {
    hide Parseable, ComputeRetryDelayMs;
  }

  /**
   A task enqueued only with messages that do not parse is never handed to a
   worker, so in every run it has no result, no failure and no dead entry: it
   stays in pending, delayed or running for ever.
   */
  lemma {:induction false} UnreadableNeverCompletes(s: System, steps: seq<Step>, id: string)
    requires AllTraced(s) && FlightReadable(s) && NothingLost(s) && Uncompleted(s, id) && Run(s, steps)
    requires EnqueuedUnreadable(Exec(s, steps), id)
    ensures var s' := Exec(s, steps);
            && Uncompleted(s', id)
            && (forall m :: m in s'.flight ==> m.id != id)
            && ((exists x :: x in s'.enqueued && x.id == id) ==> Located(s'.b, id))
    decreases steps
  {
    assert FiledById(s.b);
    EnqueuedGrows(s, steps);
    UnreadableNotInFlight(s, id);
    if steps == [] {
    } else {
      hide UuidShaped, AllTraced, FlightReadable, Uncompleted, NothingLost;
      TracedStep(s, steps[0]);
      ReadableStep(s, steps[0]);
      NothingLostStep(s, steps[0]);
      UncompletedStep(s, steps[0], id);
      UnreadableNeverCompletes(Next(s, steps[0]), steps[1..], id);
    }
  }

  /** A message whose id is no UUID. */
  const UNREADABLE := TaskMessage("x", "name", Null, Pending, 0, RetryPolicy(3, 1000, 2.0), 0, None, None, "")

  /** An input that shows it: the message is moved to running, and no worker holds it. */
  lemma UnreadableIsStuck(start: int)
    ensures var steps := [EnqueueStep(UNREADABLE, start), ReserveStep(start)];
            && Run(Init(start), steps)
            && Exec(Init(start), steps).flight == []
            && Exec(Init(start), steps).b.running == map["x" := ReservedCopy(UNREADABLE, start)]
  {
    var steps := [EnqueueStep(UNREADABLE, start), ReserveStep(start)];
    var s1 := Next(Init(start), steps[0]);
    assert !UuidShaped("x") && steps[1..] == [steps[1]];
    RunOne(s1, steps[1]);
  }

  // --------------------------------------------------------- execution bound

  /** Every enqueue of this id among the steps uses this retry limit, and a count within it. */
  ghost predicate EnqueuesWithLimit(steps: seq<Step>, id: string, limit: int) {
    forall e :: e in steps && e.EnqueueStep? && e.task.id == id ==>
                  e.task.policy.maxRetries == limit && CountInRange(e.task)
  }

  ghost predicate CopiesWithLimit(s: System, id: string, limit: int) {
    forall m :: IsCopy(s, m) && m.id == id ==> m.policy.maxRetries == limit && CountInRange(m)
  }

  lemma LimitStep(s: System, e: Step, id: string, limit: int)
    requires CopiesWithLimit(s, id, limit) && FiledById(s.b) && Enabled(s, e)
    requires EnqueuesWithLimit([e], id, limit)
    ensures CopiesWithLimit(Next(s, e), id, limit) && FiledById(Next(s, e).b)
  {
    var s' := Next(s, e);
    assert e in [e];
    forall m | IsCopy(s', m) && m.id == id
      ensures m.policy.maxRetries == limit && CountInRange(m)
    {
      var o := CopyOrigin(s, e, m);
    }
  }

  /** Executions a waiting copy may still have, counting the next one. */
  ghost function WaitingWeight(id: string): TaskMessage -> int {
    (m: TaskMessage) => if m.id == id then m.policy.maxRetries - m.retryCount + 1 else 0
  }

  /** Executions that may follow from a copy already being executed. */
  ghost function FlightWeight(id: string): TaskMessage -> int {
    (m: TaskMessage) => if m.id == id then m.policy.maxRetries - m.retryCount else 0
  }

  ghost function Potential(s: System, id: string): int {
    Sum(s.b.pending, WaitingWeight(id)) + SumSet(s.b.delayed.Keys, WaitingWeight(id)) + Sum(s.flight, FlightWeight(id))
  }

  /** Enqueues, reclaims and dead-letter retries: each grants a full round of executions. */
  ghost function Grants(s: System, id: string): int {
    Count(s.enqueued, id) + Count(s.reclaimed, id) + Count(s.revived, id)
  }

  ghost predicate WithinBudget(s: System, id: string, limit: int) {
    Count(s.popped, id) + Potential(s, id) <= (limit + 1) * Grants(s, id)
  }

  lemma OneMoreGrant(limit: int, grants: int, used: int, added: int)
    requires used <= (limit + 1) * grants && added <= limit + 1
    ensures used + added <= (limit + 1) * (grants + 1)
  {
    assert (limit + 1) * (grants + 1) == (limit + 1) * grants + (limit + 1);
  }

  /** Adding a copy within its limit, as one more grant, stays within the budget. */
  lemma GrantedCopy(s: System, s': System, id: string, limit: int, copy: TaskMessage)
    requires copy.id == id ==> copy.policy.maxRetries == limit && CountInRange(copy)
    requires WithinBudget(s, id, limit)
    requires s'.popped == s.popped
    requires Potential(s', id) <= Potential(s, id) + if copy.id == id then limit - copy.retryCount + 1 else 0
    requires Grants(s', id) == Grants(s, id) + if copy.id == id then 1 else 0
    ensures WithinBudget(s', id, limit)
  {
    if copy.id == id {
      OneMoreGrant(limit, Grants(s, id), Count(s.popped, id) + Potential(s, id), limit - copy.retryCount + 1);
    }
  }

  lemma BudgetGrants(s: System, e: Step, id: string, limit: int)
    requires e.EnqueueStep? || e.ReclaimStep? || e.ReviveStep?
    requires CopiesWithLimit(s, id, limit) && FiledById(s.b) && Enabled(s, e)
    requires EnqueuesWithLimit([e], id, limit)
    requires WithinBudget(s, id, limit)
    ensures WithinBudget(Next(s, e), id, limit)
  {
    var s' := Next(s, e);
    var w, c := WaitingWeight(id), IdWeight(id);
    assert e in [e];
    match e {
      case EnqueueStep(m, t) =>
        var copy := EnqueuedCopy(m, t);
        SumAppend(s.enqueued, m, c);
        if EnqueuesDelayed(m, t) {
          InsertKey(s.b.delayed, copy, m.runAtMs.value, w);
        } else {
          SumAppend(s.b.pending, copy, w);
        }
        GrantedCopy(s, s', id, limit, copy);
      case ReclaimStep(k, t, timeout) =>
        if Reclaims(s.b, k, t, timeout) {
          var copy := ReclaimedCopy(s.b.running[k]);
          assert IsCopy(s, s.b.running[k]);
          SumAppend(s.reclaimed, copy, c);
          SumAppend(s.b.pending, copy, w);
          GrantedCopy(s, s', id, limit, copy);
        }
      case ReviveStep(k) =>
        if Revives(s.b, k) {
          var m := s.b.dead[FirstWithId(s.b.dead, k)];
          assert IsCopy(s, m);
          SumAppend(s.revived, RevivedCopy(m), c);
          SumAppend(s.b.pending, RevivedCopy(m), w);
          GrantedCopy(s, s', id, limit, RevivedCopy(m));
        }
    }
  }

  lemma BudgetComplete(s: System, slot: nat, outcome: Outcome, t: int, id: string, limit: int)
    requires CopiesWithLimit(s, id, limit) && slot < |s.flight| && WithinBudget(s, id, limit)
    ensures WithinBudget(NextComplete(s, slot, outcome, t), id, limit)
  {
    hide Parseable, ComputeRetryDelayMs, Sum, SumSet;
    var m := s.flight[slot];
    assert IsCopy(s, m);
    SumWithout(s.flight, slot, FlightWeight(id));
    var d := Decide(m, outcome);
    if d.DoRetry? {
      var r := RetriedCopy(m, d.reason, t);
      InsertKey(s.b.delayed, r, r.runAtMs.value, WaitingWeight(id));
    }
  }

  lemma BudgetStep(s: System, e: Step, id: string, limit: int)
    requires CopiesWithLimit(s, id, limit) && FiledById(s.b) && Enabled(s, e)
    requires EnqueuesWithLimit([e], id, limit)
    requires WithinBudget(s, id, limit)
    ensures WithinBudget(Next(s, e), id, limit)
  {
    hide Parseable, ComputeRetryDelayMs, Sum, SumSet;
    var w, f, c := WaitingWeight(id), FlightWeight(id), IdWeight(id);
    match e {
      case Tick(_) =>
      case PromoteStep(m, _) =>
        RemoveKey(s.b.delayed, m, w);
        SumAppend(s.b.pending, PromotedCopy(m), w);
      case ReserveStep(t) =>
        if s.b.pending != [] {
          var m := s.b.pending[0];
          assert IsCopy(s, m);
          SumFirst(s.b.pending, w);
          SumAppend(s.popped, m, c);
          SumAppend(s.flight, ReservedCopy(m, t), f);
        }
      case CompleteStep(slot, outcome, t) => BudgetComplete(s, slot, outcome, t, id, limit);
      case CrashStep(slot) =>
        assert IsCopy(s, s.flight[slot]);
        SumWithout(s.flight, slot, f);
      case _ => BudgetGrants(s, e, id, limit);
    }
  }

  lemma {:induction false} BudgetRun(s: System, steps: seq<Step>, id: string, limit: int)
    requires CopiesWithLimit(s, id, limit) && FiledById(s.b) && WithinBudget(s, id, limit)
    requires Run(s, steps) && EnqueuesWithLimit(steps, id, limit)
    ensures CopiesWithLimit(Exec(s, steps), id, limit) && WithinBudget(Exec(s, steps), id, limit)
    decreases steps
  {
    if steps == [] {
    } else {
      assert EnqueuesWithLimit([steps[0]], id, limit) && EnqueuesWithLimit(steps[1..], id, limit);
      LimitStep(s, steps[0], id, limit);
      BudgetStep(s, steps[0], id, limit);
      BudgetRun(Next(s, steps[0]), steps[1..], id, limit);
    }
  }

  lemma PotentialNonNegative(s: System, id: string, limit: int)
    requires CopiesWithLimit(s, id, limit)
    ensures Potential(s, id) >= 0
  {
    assert forall m :: m in s.b.pending || m in s.b.delayed || m in s.flight ==> IsCopy(s, m);
    SumAtLeast(s.b.pending, WaitingWeight(id));
    SumSetAtLeast(s.b.delayed.Keys, WaitingWeight(id));
    SumAtLeast(s.flight, FlightWeight(id));
  }

  /**
   The execution bound: over every interleaving, crashes and stale completions
   included, a task is reserved at most (max_retries + 1) times for each time it
   was enqueued, reclaimed or retried from the dead-letter list.
   */
  lemma ExecutionBound(now: int, steps: seq<Step>, id: string, limit: int)
    requires Run(Init(now), steps) && EnqueuesWithLimit(steps, id, limit)
    ensures var s := Exec(Init(now), steps);
            Count(s.popped, id)
            <= (limit + 1) * (Count(s.enqueued, id) + Count(s.reclaimed, id) + Count(s.revived, id))
  {
    assert Grants(Init(now), id) == 0 && Potential(Init(now), id) == 0;
    BudgetRun(Init(now), steps, id, limit);
    PotentialNonNegative(Exec(Init(now), steps), id, limit);
  }

  // ------------------------------------------------------- delays and scores

  /** Each delayed member is filed under its own run time. */
  ghost predicate ScoresAreRunTimes(s: System) {
    forall m :: m in s.b.delayed ==> m.runAtMs == Some(s.b.delayed[m])
  }

  /** A retried copy waits no longer than its policy's ceiling, from now on. */
  ghost predicate RetryWaitsBounded(s: System) {
    forall m :: m in s.b.delayed && m.status == Retrying ==> s.b.delayed[m] <= s.now + MaxRetryDelayMs(m.policy)
  }

  lemma DelaysComplete(s: System, slot: nat, outcome: Outcome, t: int)
    requires ScoresAreRunTimes(s) && RetryWaitsBounded(s) && FlightReadable(s) && slot < |s.flight| && t <= s.now
    ensures ScoresAreRunTimes(NextComplete(s, slot, outcome, t)) && RetryWaitsBounded(NextComplete(s, slot, outcome, t))
  {
    hide UuidShaped, ValidPolicy, MaxRetryDelayMs, ComputeRetryDelayMs;
    var m := s.flight[slot];
    assert Parseable(m);
    if ShouldRetry(m) {
      RetryDelayBounded(m.policy, m.retryCount + 1);
    }
  }

  lemma DelaysStep(s: System, e: Step)
    requires ScoresAreRunTimes(s) && RetryWaitsBounded(s) && FlightReadable(s) && Enabled(s, e)
    ensures ScoresAreRunTimes(Next(s, e)) && RetryWaitsBounded(Next(s, e))
  {
    hide Parseable, MaxRetryDelayMs, ComputeRetryDelayMs, FirstWithId, NextComplete;
    if e.CompleteStep? {
      DelaysComplete(s, e.slot, e.outcome, e.t);
    }
  }

  /** In every run, delayed scores are run times, and retried copies are due within the ceiling. */
  lemma {:induction false} DelaysInEveryRun(s: System, steps: seq<Step>)
    requires ScoresAreRunTimes(s) && RetryWaitsBounded(s) && FlightReadable(s) && Run(s, steps)
    ensures ScoresAreRunTimes(Exec(s, steps)) && RetryWaitsBounded(Exec(s, steps))
    decreases steps
  {
    hide ScoresAreRunTimes, RetryWaitsBounded, FlightReadable, Next;
    if steps == [] {
    } else {
      DelaysStep(s, steps[0]);
      ReadableStep(s, steps[0]);
      DelaysInEveryRun(Next(s, steps[0]), steps[1..]);
    }
  }

  const INT64_MAX := 0x7fff_ffff_ffff_ffff

  /**
   The run time a retry computes fits a 64-bit integer whenever the clock plus
   the policy's ceiling does, because workers hold only valid policies and retry
   only below the limit; and no copy ever exceeds the limit it was enqueued with.
   */
  lemma RetryTimeFits(start: int, steps: seq<Step>, slot: nat, reason: string, t: int)
    requires Run(Init(start), steps)
    requires var s := Exec(Init(start), steps);
             && slot < |s.flight| && ShouldRetry(s.flight[slot])
             && t <= s.now && s.now + MaxRetryDelayMs(s.flight[slot].policy) <= INT64_MAX
    ensures var s := Exec(Init(start), steps);
            var r := RetriedCopy(s.flight[slot], reason, t);
            && t <= r.runAtMs.value <= INT64_MAX
            && r.retryCount <= r.policy.maxRetries
            && ((forall x :: x in s.enqueued && x.id == r.id ==> CountInRange(x)) ==> CountInRange(r))
  {
    var s := Exec(Init(start), steps);
    var m := s.flight[slot];
    EveryCopyIsTraced(Init(start), steps);
    OnlyReadableAreHandedOut(Init(start), steps);
    assert IsCopy(s, m);
    RetryDelayBounded(m.policy, m.retryCount + 1);
  }

  lemma DelayedStep(s: System, e: Step, m: TaskMessage)
    requires ScoresAreRunTimes(s) && Enabled(s, e)
    requires m in s.b.delayed && s.now < s.b.delayed[m]
    ensures m in Next(s, e).b.delayed && Next(s, e).b.delayed[m] == s.b.delayed[m]
  {
  }

  lemma ScoreStep(s: System, e: Step)
    requires ScoresAreRunTimes(s) && Enabled(s, e)
    ensures ScoresAreRunTimes(Next(s, e))
  {
  }

  /** Nothing leaves the delayed set before its time, in any run. */
  lemma {:induction false} DelayedUntilDue(s: System, steps: seq<Step>, m: TaskMessage)
    requires ScoresAreRunTimes(s) && Run(s, steps)
    requires m in s.b.delayed && Exec(s, steps).now < s.b.delayed[m]
    ensures m in Exec(s, steps).b.delayed && Exec(s, steps).b.delayed[m] == s.b.delayed[m]
    decreases steps
  {
    if steps == [] {
    } else {
      var s' := Next(s, steps[0]);
      ClockMonotone(s', steps[1..]);
      ScoreStep(s, steps[0]);
      DelayedStep(s, steps[0], m);
      DelayedUntilDue(s', steps[1..], m);
    }
  }

  // ------------------------------------------------------------------- drain

  /** Executions left in a copy, counting one that is under way; none if it does not parse. */
  ghost function LifeWeight(): TaskMessage -> int {
    (m: TaskMessage) =>
      if !Parseable(m) then 0 else if ShouldRetry(m) then m.policy.maxRetries - m.retryCount + 1 else 1
  }

  ghost function Life(s: System): int {
    Sum(s.b.pending, LifeWeight()) + SumSet(s.b.delayed.Keys, LifeWeight()) + Sum(s.flight, LifeWeight())
  }

  /** Steps that bring no new work into the queue. */
  predicate Draining(e: Step) {
    !e.EnqueueStep? && !e.ReclaimStep? && !e.ReviveStep?
  }

  lemma LifeNonNegative(s: System)
    ensures Life(s) >= 0
  {
    hide Parseable;
    var w := LifeWeight();
    SumAtLeast(s.b.pending, w);
    SumSetAtLeast(s.b.delayed.Keys, w);
    SumAtLeast(s.flight, w);
  }

  lemma LifeComplete(s: System, slot: nat, outcome: Outcome, t: int)
    requires FlightReadable(s) && slot < |s.flight|
    ensures Life(NextComplete(s, slot, outcome, t)) <= Life(s) - 1
  {
    hide UuidShaped, ComputeRetryDelayMs, Sum, SumSet;
    var m, w := s.flight[slot], LifeWeight();
    assert Parseable(m);
    SumWithout(s.flight, slot, w);
    var d := Decide(m, outcome);
    if d.DoRetry? {
      var r := RetriedCopy(m, d.reason, t);
      InsertKey(s.b.delayed, r, r.runAtMs.value, w);
    }
  }

  lemma LifeStep(s: System, e: Step)
    requires FlightReadable(s) && Enabled(s, e) && Draining(e)
    ensures Life(Next(s, e)) <= Life(s) - (Next(s, e).completions - s.completions)
  {
    hide UuidShaped, ComputeRetryDelayMs, Sum, SumSet;
    var w := LifeWeight();
    match e {
      case Tick(_) =>
      case PromoteStep(m, _) =>
        RemoveKey(s.b.delayed, m, w);
        SumAppend(s.b.pending, PromotedCopy(m), w);
      case ReserveStep(t) =>
        if s.b.pending != [] {
          SumFirst(s.b.pending, w);
          SumAppend(s.flight, ReservedCopy(s.b.pending[0], t), w);
        }
      case CompleteStep(slot, outcome, t) => LifeComplete(s, slot, outcome, t);
      case CrashStep(slot) => SumWithout(s.flight, slot, w);
    }
  }

  /**
   While no task is enqueued, reclaimed or revived, every completed execution
   uses up at least one of the executions left; so there are at most Life(s).
   */
  lemma {:induction false} CompletionsUseUpLife(s: System, steps: seq<Step>)
    requires FlightReadable(s) && Run(s, steps) && forall e :: e in steps ==> Draining(e)
    ensures 0 <= Life(Exec(s, steps)) <= Life(s) - (Exec(s, steps).completions - s.completions)
    decreases steps
  {
    if steps == [] {
      LifeNonNegative(s);
    } else {
      hide FlightReadable, Life;
      LifeStep(s, steps[0]);
      ReadableStep(s, steps[0]);
      CompletionsUseUpLife(Next(s, steps[0]), steps[1..]);
    }
  }

  // ----------------------------------------------------------- from the start

  /** All of the above holds in every state that an empty queue can reach. */
  lemma EveryRunIsSafe(start: int, steps: seq<Step>)
    requires Run(Init(start), steps)
    ensures var s := Exec(Init(start), steps);
            && AllTraced(s) && NothingLost(s) && InOrder(s)
            && FlightReadable(s) && ScoresAreRunTimes(s) && RetryWaitsBounded(s)
  {
    EveryCopyIsTraced(Init(start), steps);
    NoTaskIsLost(Init(start), steps);
    PendingIsFifo(Init(start), steps);
    OnlyReadableAreHandedOut(Init(start), steps);
    DelaysInEveryRun(Init(start), steps);
  }
}
