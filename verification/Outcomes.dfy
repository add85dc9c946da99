/**
 What each step of the protocol does, said in the fields of the messages and the
 containers alone; and what that means over whole runs: which tasks have results,
 which are dead, and what the fields of a copy say in each place.
 */
module Outcomes {
  import opened Tasks
  import opened RetryDelays
  import opened Sums
  import opened Broker
  import opened Protocol
  import opened Leases

  // ------------------------------------------------------------------ steps

  /** A task with a run time later than the clock reading is delayed until then; any other is pending at once. */
  lemma EnqueueOutcome(s: System, m: TaskMessage, t: int)
    requires t <= s.now
    ensures var b := Next(s, EnqueueStep(m, t)).b;
            if m.runAtMs.Some? && m.runAtMs.value > t then
              b == s.b.(delayed := s.b.delayed[m.(status := Pending) := m.runAtMs.value],
                        status := s.b.status[m.id := Pending])
            else
              b == s.b.(pending := s.b.pending + [m.(status := Pending, runAtMs := None)],
                        status := s.b.status[m.id := Pending])
  {
  }

  /** A due member loses its run time and goes to the back of the queue. */
  lemma PromoteOutcome(s: System, m: TaskMessage, t: int)
    requires Enabled(s, PromoteStep(m, t))
    ensures m in s.b.delayed && s.b.delayed[m] <= t
    ensures Next(s, PromoteStep(m, t)).b
            == s.b.(delayed := s.b.delayed - {m},
                    pending := s.b.pending + [m.(status := Pending, runAtMs := None)],
                    status := s.b.status[m.id := Pending])
  {
  }

  /** The oldest message is leased, with the clock reading as the time of the lease. */
  lemma ReserveOutcome(s: System, t: int)
    requires t <= s.now && s.b.pending != []
    ensures var m := s.b.pending[0].(status := Running, reservedAtMs := Some(t));
            Next(s, ReserveStep(t)).b
            == s.b.(pending := s.b.pending[1..],
                    running := s.b.running[m.id := m],
                    status := s.b.status[m.id := Running])
  {
  }

  /** A lease is taken back exactly if more than the timeout has passed since it was given. */
  lemma ReclaimOutcome(s: System, id: string, t: int, timeout: int)
    requires t <= s.now
    ensures var b := Next(s, ReclaimStep(id, t, timeout)).b;
            if id in s.b.running && s.b.running[id].reservedAtMs.Some?
               && t - s.b.running[id].reservedAtMs.value > timeout then
              b == s.b.(running := s.b.running - {id},
                        pending := s.b.pending + [s.b.running[id].(status := Pending, reservedAtMs := None)],
                        status := s.b.status[id := Pending])
            else b == s.b
  {
  }

  /** A dead task, if there is one, starts afresh: its first entry goes to the queue with count and error cleared. */
  lemma ReviveOutcome(s: System, id: string, k: nat)
    requires k < |s.b.dead| && s.b.dead[k].id == id && forall i :: 0 <= i < k ==> s.b.dead[i].id != id
    ensures var m := s.b.dead[k].(status := Pending, retryCount := 0, lastError := "",
                                  runAtMs := None, reservedAtMs := None);
            Next(s, ReviveStep(id)).b
            == s.b.(dead := s.b.dead[..k] + s.b.dead[k + 1..],
                    pending := s.b.pending + [m],
                    status := s.b.status[id := Pending],
                    failures := s.b.failures - {id})
  {
    assert FirstWithId(s.b.dead, id) == k;
  }

  /** A worker that crashes leaves the broker as it is, and loses only its own copy; time passes for all. */
  lemma CrashOutcome(s: System, slot: nat, elapsed: nat)
    requires slot < |s.flight|
    ensures Next(s, CrashStep(slot)) == s.(flight := s.flight[..slot] + s.flight[slot + 1..])
    ensures Next(s, Tick(elapsed)) == s.(now := s.now + elapsed)
  {
  }

  /** The reason with which a worker gives up on its copy, if it does: no handler, or no retry left. */
  function GivesUp(copy: TaskMessage, outcome: Outcome): Option<string> {
    match outcome
    case NoHandler => Some("unknown task: " + copy.name)
    case Success => None
    case Failure(error) => if copy.retryCount >= copy.policy.maxRetries then Some(error) else None
  }

  /** A task that succeeds gets its result, and nothing else. */
  lemma SuccessOutcome(s: System, slot: nat, t: int)
    requires slot < |s.flight| && t <= s.now
    ensures var id := s.flight[slot].id;
            Next(s, CompleteStep(slot, Success, t)).b
            == s.b.(running := s.b.running - {id},
                    status := s.b.status[id := Succeeded],
                    results := s.b.results[id := TaskResult(true, Obj(map[]), "")],
                    failures := s.b.failures - {id})
  {
  }

  /** A task without a handler, or that fails with no retry left, becomes the newest dead entry, with the reason. */
  lemma DeadLetterOutcome(s: System, slot: nat, outcome: Outcome, t: int)
    requires slot < |s.flight| && t <= s.now && GivesUp(s.flight[slot], outcome).Some?
    ensures var id, reason := s.flight[slot].id, GivesUp(s.flight[slot], outcome).value;
            var entry := if id in s.b.running then [s.b.running[id].(status := Dead, lastError := reason)] else [];
            Next(s, CompleteStep(slot, outcome, t)).b
            == s.b.(running := s.b.running - {id},
                    dead := entry + s.b.dead,
                    status := s.b.status[id := Dead],
                    failures := s.b.failures[id := reason])
  {
  }

  /** A task that fails with a retry left is delayed, its count one higher, until its backoff is over. */
  lemma RetryOutcome(s: System, slot: nat, error: string, t: int)
    requires slot < |s.flight| && t <= s.now
    requires s.flight[slot].retryCount < s.flight[slot].policy.maxRetries
    ensures var copy := s.flight[slot];
            var due := t + ComputeRetryDelayMs(copy.policy, copy.retryCount + 1);
            var retry := copy.(retryCount := copy.retryCount + 1, lastError := error, status := Retrying,
                               reservedAtMs := None, runAtMs := Some(due));
            Next(s, CompleteStep(slot, Failure(error), t)).b
            == s.b.(running := s.b.running - {copy.id},
                    delayed := s.b.delayed[retry := due],
                    status := s.b.status[copy.id := Retrying],
                    failures := s.b.failures[copy.id := error])
  {
  }

  /** With the lease held, the retry is then the only copy of the task. */
  lemma RetryIsOnlyCopy(s: System, slot: nat, error: string, t: int) returns (retry: TaskMessage)
    requires OneCopy(s) && slot < |s.flight| && t <= s.now && Holds(s.b, s.flight[slot])
    requires s.flight[slot].retryCount < s.flight[slot].policy.maxRetries
    ensures var copy, b := s.flight[slot], Next(s, CompleteStep(slot, Failure(error), t)).b;
            && retry in b.delayed && retry.id == copy.id && retry.retryCount == copy.retryCount + 1
            && copy.id !in b.running && copy.id !in b.results
            && forall x :: x in b.pending || x in b.dead || (x in b.delayed && x != retry) ==> x.id != copy.id
  {
    hide ComputeRetryDelayMs;
    var copy := s.flight[slot];
    OnlyRunning(s, copy.id);
    hide OneCopy;
    retry := RetriedCopy(copy, error, t);
  }

  // ------------------------------------------- results come from successes

  /** Some worker completed the task with success. */
  ghost predicate Succeeds(s: System, steps: seq<Step>, id: string)
    requires Run(s, steps)
    decreases steps
  {
    && steps != []
    && (|| (&& steps[0].CompleteStep? && steps[0].outcome == Success && s.flight[steps[0].slot].id == id)
        || Succeeds(Next(s, steps[0]), steps[1..], id))
  }

  lemma ResultsStep(s: System, e: Step, id: string)
    requires Enabled(s, e)
    ensures id in Next(s, e).b.results
            <==> id in s.b.results || (e.CompleteStep? && e.outcome == Success && s.flight[e.slot].id == id)
  {
    hide Parseable, ComputeRetryDelayMs, FirstWithId;
  }

  /** In every run a task has a result exactly if some completion of it was a success. */
  lemma {:induction false} ResultIffSuccess(s: System, steps: seq<Step>, id: string)
    requires Run(s, steps)
    ensures id in Exec(s, steps).b.results <==> id in s.b.results || Succeeds(s, steps, id)
    decreases steps
  {
    hide Next;
    if steps == [] {
    } else {
      ResultsStep(s, steps[0], id);
      ResultIffSuccess(Next(s, steps[0]), steps[1..], id);
    }
  }

  // ------------------------------------------------- dead tasks are exhausted

  /** The task has no retry left, or no handler. */
  predicate Exhausted(m: TaskMessage) {
    m.retryCount >= m.policy.maxRetries || m.lastError == "unknown task: " + m.name
  }

  ghost predicate DeadAreExhausted(s: System) {
    forall m :: m in s.b.dead ==> Exhausted(m)
  }

  lemma ExhaustedStep(s: System, e: Step)
    requires DeadAreExhausted(s) && LeaseHeld(s, e)
    ensures DeadAreExhausted(Next(s, e))
  {
    hide Parseable, ComputeRetryDelayMs, FirstWithId;
  }

  /** In every lease-held run only tasks with no retry left, or no handler, are dead. */
  lemma {:induction false} OnlyExhaustedDie(s: System, steps: seq<Step>)
    requires DeadAreExhausted(s) && LeaseRun(s, steps) && Run(s, steps)
    ensures DeadAreExhausted(Exec(s, steps))
    decreases steps
  {
    hide DeadAreExhausted, Next, LeaseHeld;
    if steps == [] {
    } else {
      ExhaustedStep(s, steps[0]);
      OnlyExhaustedDie(Next(s, steps[0]), steps[1..]);
    }
  }

  // ----------------------------------------------------- fields in each place

  /** What the optional fields of a copy say, place by place. */
  ghost predicate FieldsByPlace(s: System) {
    && (forall m :: m in s.b.pending ==> m.status == Pending && m.runAtMs.None? && m.reservedAtMs.None?)
    && (forall m :: m in s.b.delayed ==>
          && (m.status == Pending || m.status == Retrying)
          && m.runAtMs == Some(s.b.delayed[m]) && m.reservedAtMs.None?)
    && (forall id :: id in s.b.running ==>
          var m := s.b.running[id]; m.status == Running && m.runAtMs.None? && m.reservedAtMs.Some?)
    && (forall m :: m in s.b.dead ==> m.status == Dead && m.runAtMs.None? && m.reservedAtMs.Some?)
    && (forall m :: m in s.flight ==> m.status == Running && m.runAtMs.None? && m.reservedAtMs.Some?)
  }

  lemma FieldsDrop(s: System, slot: nat, outcome: Outcome, t: int)
    requires FieldsByPlace(s) && slot < |s.flight| && !Decide(s.flight[slot], outcome).DoRetry?
    ensures FieldsByPlace(NextComplete(s, slot, outcome, t))
  {
  }

  lemma FieldsRetry(s: System, slot: nat, outcome: Outcome, t: int)
    requires FieldsByPlace(s) && slot < |s.flight| && Decide(s.flight[slot], outcome).DoRetry?
    ensures FieldsByPlace(NextComplete(s, slot, outcome, t))
  {
    hide ComputeRetryDelayMs;
    assert s.flight[slot] in s.flight;
  }

  lemma FieldsComplete(s: System, slot: nat, outcome: Outcome, t: int)
    requires FieldsByPlace(s) && slot < |s.flight|
    ensures FieldsByPlace(NextComplete(s, slot, outcome, t))
  {
    hide FieldsByPlace, NextComplete, Decide;
    if Decide(s.flight[slot], outcome).DoRetry? {
      FieldsRetry(s, slot, outcome, t);
    } else {
      FieldsDrop(s, slot, outcome, t);
    }
  }

  lemma FieldsRevive(s: System, id: string)
    requires FieldsByPlace(s)
    ensures FieldsByPlace(NextRevive(s, id))
  {
    var k := FirstWithId(s.b.dead, id);
    hide FirstWithId;
    if k < |s.b.dead| {
      assert forall x :: x in Without(s.b.dead, k) ==> x in s.b.dead;
    }
  }

  lemma FieldsReserve(s: System, t: int)
    requires FieldsByPlace(s)
    ensures FieldsByPlace(NextReserve(s, t))
  {
    hide Parseable;
    if s.b.pending != [] {
      assert s.b.pending[0] in s.b.pending;
    }
  }

  lemma FieldsEnqueue(s: System, m: TaskMessage, t: int)
    requires FieldsByPlace(s) && m.reservedAtMs.None?
    ensures FieldsByPlace(NextEnqueue(s, m, t))
  {
  }

  lemma FieldsPromote(s: System, m: TaskMessage)
    requires FieldsByPlace(s) && m in s.b.delayed
    ensures FieldsByPlace(NextPromote(s, m))
  {
  }

  lemma FieldsReclaim(s: System, id: string, t: int, timeout: int)
    requires FieldsByPlace(s)
    ensures FieldsByPlace(NextReclaim(s, id, t, timeout))
  {
    hide Stale;
  }

  lemma FieldsFlight(s: System, s': System)
    requires FieldsByPlace(s) && s'.b == s.b && forall m :: m in s'.flight ==> m in s.flight
    ensures FieldsByPlace(s')
  {
  }

  lemma FieldsStep(s: System, e: Step)
    requires FieldsByPlace(s) && Enabled(s, e) && (e.EnqueueStep? ==> e.task.reservedAtMs.None?)
    ensures FieldsByPlace(Next(s, e))
  {
    hide FieldsByPlace, NextEnqueue, NextPromote, NextReserve, NextReclaim, NextComplete, NextRevive;
    match e {
      case EnqueueStep(m, t) => FieldsEnqueue(s, m, t);
      case PromoteStep(m, _) => FieldsPromote(s, m);
      case ReserveStep(t) => FieldsReserve(s, t);
      case ReclaimStep(id, t, timeout) => FieldsReclaim(s, id, t, timeout);
      case CompleteStep(slot, outcome, t) => FieldsComplete(s, slot, outcome, t);
      case ReviveStep(id) => FieldsRevive(s, id);
      case _ => FieldsFlight(s, Next(s, e));
    }
  }

  /**
   In every run, stale completions and crashes included, of tasks enqueued without
   a lease: waiting copies carry no lease, and a run time exactly if delayed, which
   is their score; running, dead and in-flight copies carry a lease and no run time.
   */
  lemma {:induction false} FieldsInEveryRun(s: System, steps: seq<Step>)
    requires FieldsByPlace(s) && Run(s, steps)
    requires forall e :: e in steps && e.EnqueueStep? ==> e.task.reservedAtMs.None?
    ensures FieldsByPlace(Exec(s, steps))
    decreases steps
  {
    hide FieldsByPlace, Next;
    if steps == [] {
    } else {
      FieldsStep(s, steps[0]);
      FieldsInEveryRun(Next(s, steps[0]), steps[1..]);
    }
  }
}
